/** Transfer receipts: how one is built and hashed, its form on the wire and back, and what becomes
    of one that is rebuilt from the ledger. Hashing and encoding are functions that are given. */
module Receipts {
  import opened Options
  import opened Helpers

  datatype Commitment = Commitment(
    channelID: string, chaincodeID: string, function_: string, fromID: string, toID: string, amount: int,
    internalRef: string, timestamp: int, nonce: string)

  datatype Endorsement = Endorsement(
    msp: string, endorserID: string, certFingerprint: string, certificatePEM: string, signatureHex: string,
    timestamp: int, signatureValid: bool, certChainValid: bool)

  datatype Timestamps = Timestamps(clientSubmit: int, endorsementTime: int, ordererReceive: int, blockCommit: int,
                                   receiptCreated: int)

  datatype Observation = Observation(observedAt: int, anchorType: string, anchorRef: string)

  datatype Receipt = Receipt(
    schemaVersion: string, channelID: string, txID: string, chaincodeID: string, commitmentHash: string,
    commitmentOpening: Option<Commitment>, commitmentAlgorithm: string, blockNumber: nat, blockHash: string,
    txIndex: int, validationCode: int, validationCodeName: string, endorsements: seq<Endorsement>,
    originMSP: string, policyID: string, policyMet: bool, timestamps: Timestamps, statusEndpoint: string,
    observation: Observation, internalRef: string, receiptSignature: string, receiptHash: string)

  /** The part of a receipt that its hash covers. */
  datatype HashView = HashView(
    schemaVersion: string, channelID: string, txID: string, commitmentHash: string,
    commitmentOpening: Option<Commitment>, commitmentAlgorithm: string, blockNumber: nat, blockHash: string,
    validationCode: int, endorsements: seq<Endorsement>, originMSP: string, policyID: string, policyMet: bool,
    timestamps: Timestamps, observation: Observation)

  /** The library functions: hashes of an encoded value, a PEM block's contents, hexadecimal text,
      and the name of a validation code. */
  datatype Library = Library(
    hashCommitment: Commitment -> string, hashView: HashView -> string, sha256: string -> string,
    pem: string -> Option<string>, hex: string -> string, codeName: int -> string)

  const SCHEMA_VERSION := "v1"
  const ALGORITHM := "sha256(json-transfer-commitment-v1)"
  const ANCHOR_TYPE := "fabric_block_header_hash"

  function View(r: Receipt): HashView {
    HashView(r.schemaVersion, r.channelID, r.txID, r.commitmentHash, r.commitmentOpening, r.commitmentAlgorithm,
             r.blockNumber, r.blockHash, r.validationCode, r.endorsements, r.originMSP, r.policyID, r.policyMet,
             r.timestamps, r.observation)
  }

  predicate HashValid(lib: Library, r: Receipt) { r.receiptHash == lib.hashView(View(r)) }

  predicate OpeningValid(lib: Library, r: Receipt) {
    r.commitmentOpening.Some? ==> lib.hashCommitment(r.commitmentOpening.value) == r.commitmentHash
  }

  // ----------------------------------------------------------------------------------- times

  /** The zero time, in nanoseconds from the start of 1970. */
  const ZERO_TIME := -62_135_596_800_000 * NANOS_PER_MILLI

  function UnixMilli(t: int): int { t / NANOS_PER_MILLI }

  function TimeFromUnixMilli(ms: int): int { if ms == 0 then ZERO_TIME else ms * NANOS_PER_MILLI }

  // -------------------------------------------------------------------------------- building

  datatype EndorsementInput = EndorsementInput(
    msp: string, endorserID: string, certPEM: string, signature: string, timestamp: int, signatureValid: bool,
    certChainValid: bool)

  datatype BuildInput = BuildInput(
    txID: string, commitmentHash: string, commitmentOpening: Option<Commitment>, blockNumber: nat, blockHash: string,
    txIndex: int, validationCode: int, endorsements: seq<EndorsementInput>, originMSP: string, policyID: string,
    policyMet: bool, internalRef: string, clientSubmitTime: int, endorsementTime: int, commitTime: int)

  datatype Builder = Builder(channelID: string, chaincodeID: string, statusEndpoint: string, includeFullCerts: bool)

  function Fingerprint(lib: Library, certPEM: string): string {
    if certPEM == "" then ""
    else match lib.pem(certPEM)
      case Some(der) => lib.sha256(der)
      case None => lib.sha256(certPEM)
  }

  function Recorded(lib: Library, fullCerts: bool, e: EndorsementInput): Endorsement {
    Endorsement(e.msp, e.endorserID, Fingerprint(lib, e.certPEM), if fullCerts then e.certPEM else "",
                lib.hex(e.signature), if e.timestamp == ZERO_TIME then 0 else UnixMilli(e.timestamp),
                e.signatureValid, e.certChainValid)
  }

  /** What is kept of an endorsement: the fingerprint is of the certificate's contents, or of the
      text as it stands when that is not PEM; a time that was never set is kept as zero. */
  ghost predicate RecordOf(lib: Library, fullCerts: bool, e: EndorsementInput, record: Endorsement) {
    && record.msp == e.msp && record.endorserID == e.endorserID && record.signatureHex == lib.hex(e.signature)
    && record.signatureValid == e.signatureValid && record.certChainValid == e.certChainValid
    && record.certificatePEM == (if fullCerts then e.certPEM else "")
    && record.timestamp == (if e.timestamp == -62_135_596_800_000_000_000 then 0 else e.timestamp / 1_000_000)
    && if e.certPEM == "" then record.certFingerprint == ""
       else if lib.pem(e.certPEM).None? then record.certFingerprint == lib.sha256(e.certPEM)
       else record.certFingerprint == lib.sha256(lib.pem(e.certPEM).value)
  }

  function AllRecorded(lib: Library, fullCerts: bool, es: seq<EndorsementInput>): seq<Endorsement> {
    seq(|es|, i requires 0 <= i < |es| => Recorded(lib, fullCerts, es[i]))
  }

  /** Everything a built receipt says, its hash aside. */
  function Content(lib: Library, b: Builder, input: BuildInput, created: int): Receipt {
    Receipt(SCHEMA_VERSION, b.channelID, input.txID, b.chaincodeID, input.commitmentHash, input.commitmentOpening,
            ALGORITHM, input.blockNumber, input.blockHash, input.txIndex, input.validationCode,
            lib.codeName(input.validationCode), AllRecorded(lib, b.includeFullCerts, input.endorsements),
            input.originMSP, input.policyID, input.policyMet,
            Timestamps(UnixMilli(input.clientSubmitTime), UnixMilli(input.endorsementTime), 0,
                       UnixMilli(input.commitTime), created),
            b.statusEndpoint, Observation(created, ANCHOR_TYPE, input.blockHash), input.internalRef, "", "")
  }

  function Built(lib: Library, b: Builder, input: BuildInput, created: int): Receipt {
    var r := Content(lib, b, input, created);
    r.(receiptHash := lib.hashView(View(r)))
  }

  method Build(lib: Library, b: Builder, input: BuildInput, created: int) returns (r: Receipt)
    ensures r == Built(lib, b, input, created)
    ensures r.receiptHash == lib.hashView(View(r)) && r.receiptSignature == ""
    ensures r.schemaVersion == "v1" && r.commitmentAlgorithm == "sha256(json-transfer-commitment-v1)"
    ensures r.channelID == b.channelID && r.chaincodeID == b.chaincodeID && r.statusEndpoint == b.statusEndpoint
    ensures r.txID == input.txID && r.internalRef == input.internalRef && r.txIndex == input.txIndex
    ensures r.commitmentHash == input.commitmentHash && r.commitmentOpening == input.commitmentOpening
    ensures r.blockNumber == input.blockNumber && r.blockHash == input.blockHash
    ensures r.validationCode == input.validationCode && r.validationCodeName == lib.codeName(input.validationCode)
    ensures r.originMSP == input.originMSP && r.policyID == input.policyID && r.policyMet == input.policyMet
    ensures r.timestamps == Timestamps(input.clientSubmitTime / 1_000_000, input.endorsementTime / 1_000_000, 0,
                                       input.commitTime / 1_000_000, created)
    ensures r.observation == Observation(created, "fabric_block_header_hash", input.blockHash)
    ensures |r.endorsements| == |input.endorsements|
    ensures forall i | 0 <= i < |r.endorsements| ::
      RecordOf(lib, b.includeFullCerts, input.endorsements[i], r.endorsements[i])
  {
    r := Receipt(SCHEMA_VERSION, b.channelID, input.txID, b.chaincodeID, input.commitmentHash, input.commitmentOpening,
                 ALGORITHM, input.blockNumber, input.blockHash, input.txIndex, input.validationCode,
                 lib.codeName(input.validationCode), [], input.originMSP, input.policyID, input.policyMet,
                 Timestamps(UnixMilli(input.clientSubmitTime), UnixMilli(input.endorsementTime), 0,
                            UnixMilli(input.commitTime), created),
                 b.statusEndpoint, Observation(0, "", ""), input.internalRef, "", "");
    r := r.(observation := Observation(r.timestamps.receiptCreated, ANCHOR_TYPE, r.blockHash));
    var records: seq<Endorsement> := [];
    for i := 0 to |input.endorsements|
      invariant |records| == i
      invariant forall j | 0 <= j < i :: records[j] == Recorded(lib, b.includeFullCerts, input.endorsements[j])
    {
      var e := input.endorsements[i];
      var record := Endorsement(e.msp, e.endorserID, "", "", lib.hex(e.signature), 0, e.signatureValid,
                                e.certChainValid);
      if |e.certPEM| > 0 {
        var block := lib.pem(e.certPEM);
        if block.Some? {
          record := record.(certFingerprint := lib.sha256(block.value));
        } else {
          record := record.(certFingerprint := lib.sha256(e.certPEM));
        }
        if b.includeFullCerts {
          record := record.(certificatePEM := e.certPEM);
        }
      }
      if e.timestamp != ZERO_TIME {
        record := record.(timestamp := UnixMilli(e.timestamp));
      }
      records := records + [record];
    }
    assert records == AllRecorded(lib, b.includeFullCerts, input.endorsements);
    r := r.(endorsements := records);
    r := r.(receiptHash := lib.hashView(View(r)));
  }

  // ------------------------------------------------------------------------------ on the wire

  datatype OpeningDTO = OpeningDTO(
    channelID: string, chaincodeID: string, function_: string, fromID: string, toID: string, amount: int,
    internalRef: string, timestamp: int, nonce: string)

  datatype EndorsementDTO = EndorsementDTO(
    msp: string, endorserID: string, certFingerprint: string, certificatePEM: string, signatureHex: string,
    timestamp: int, signatureValid: bool, certChainValid: bool)

  /** The response form has every field of a receipt but its signature. */
  datatype ReceiptDTO = ReceiptDTO(
    schemaVersion: string, channelID: string, txID: string, chaincodeID: string, commitmentHash: string,
    commitmentOpening: Option<OpeningDTO>, commitmentAlgorithm: string, blockNumber: nat, blockHash: string,
    txIndex: int, validationCode: int, validationCodeName: string, endorsements: seq<EndorsementDTO>,
    originMSP: string, policyID: string, policyMet: bool, timestamps: Timestamps, statusEndpoint: string,
    observation: Observation, internalRef: string, receiptHash: string)

  function EndorsementToDTO(e: Endorsement): EndorsementDTO {
    EndorsementDTO(e.msp, e.endorserID, e.certFingerprint, e.certificatePEM, e.signatureHex, e.timestamp,
                   e.signatureValid, e.certChainValid)
  }

  function DTOToEndorsement(d: EndorsementDTO): Endorsement {
    Endorsement(d.msp, d.endorserID, d.certFingerprint, d.certificatePEM, d.signatureHex, d.timestamp,
                d.signatureValid, d.certChainValid)
  }

  function OpeningToDTO(c: Commitment): OpeningDTO {
    OpeningDTO(c.channelID, c.chaincodeID, c.function_, c.fromID, c.toID, c.amount, c.internalRef, c.timestamp, c.nonce)
  }

  function DTOToOpening(d: OpeningDTO): Commitment {
    Commitment(d.channelID, d.chaincodeID, d.function_, d.fromID, d.toID, d.amount, d.internalRef, d.timestamp, d.nonce)
  }

  /** The wire form of a receipt, except that its endorsements are still to be appended. */
  function BareDTO(r: Receipt): ReceiptDTO {
    ReceiptDTO(r.schemaVersion, r.channelID, r.txID, r.chaincodeID, r.commitmentHash,
               if r.commitmentOpening.Some? then Some(OpeningToDTO(r.commitmentOpening.value)) else None,
               r.commitmentAlgorithm, r.blockNumber, r.blockHash, r.txIndex, r.validationCode, r.validationCodeName,
               [], r.originMSP, r.policyID, r.policyMet, r.timestamps, r.statusEndpoint, r.observation,
               r.internalRef, r.receiptHash)
  }

  function BareReceipt(d: ReceiptDTO): Receipt {
    Receipt(d.schemaVersion, d.channelID, d.txID, d.chaincodeID, d.commitmentHash,
            if d.commitmentOpening.Some? then Some(DTOToOpening(d.commitmentOpening.value)) else None,
            d.commitmentAlgorithm, d.blockNumber, d.blockHash, d.txIndex, d.validationCode, d.validationCodeName,
            [], d.originMSP, d.policyID, d.policyMet, d.timestamps, d.statusEndpoint, d.observation,
            d.internalRef, "", d.receiptHash)
  }

  function ReceiptToDTO(r: Receipt): ReceiptDTO {
    BareDTO(r).(endorsements := seq(|r.endorsements|, i requires 0 <= i < |r.endorsements| =>
                                    EndorsementToDTO(r.endorsements[i])))
  }

  function DTOToReceipt(d: ReceiptDTO): Receipt {
    BareReceipt(d).(endorsements := seq(|d.endorsements|, i requires 0 <= i < |d.endorsements| =>
                                        DTOToEndorsement(d.endorsements[i])))
  }

  method ToDTO(r: Receipt) returns (d: ReceiptDTO)
    ensures d == ReceiptToDTO(r)
    ensures DTOToReceipt(d) == r.(receiptSignature := "")
  {
    var es: seq<EndorsementDTO> := [];
    for i := 0 to |r.endorsements|
      invariant |es| == i && forall j | 0 <= j < i :: es[j] == EndorsementToDTO(r.endorsements[j])
    {
      es := es + [EndorsementToDTO(r.endorsements[i])];
    }
    d := BareDTO(r).(endorsements := es);
    assert d == ReceiptToDTO(r);
    ThereAndBack(r);
  }

  method FromDTO(d: ReceiptDTO) returns (r: Receipt)
    ensures ReceiptToDTO(r) == d && r.receiptSignature == ""
    ensures r == DTOToReceipt(d)
  {
    var es: seq<Endorsement> := [];
    for i := 0 to |d.endorsements|
      invariant |es| == i && forall j | 0 <= j < i :: es[j] == DTOToEndorsement(d.endorsements[j])
    {
      es := es + [DTOToEndorsement(d.endorsements[i])];
    }
    r := BareReceipt(d).(endorsements := es);
    assert es == DTOToReceipt(d).endorsements;
    BackAndThere(d);
  }

  lemma ThereAndBack(r: Receipt)
    ensures DTOToReceipt(ReceiptToDTO(r)) == r.(receiptSignature := "")
  {
    assert DTOToReceipt(ReceiptToDTO(r)).endorsements == r.endorsements;
  }

  lemma BackAndThere(d: ReceiptDTO)
    ensures ReceiptToDTO(DTOToReceipt(d)) == d
  {
    assert ReceiptToDTO(DTOToReceipt(d)).endorsements == d.endorsements;
  }

  /** There and back loses the signature and nothing else, so both checks come out the same; and
      every wire form comes from some receipt. */
  lemma RoundTrip(lib: Library, r: Receipt, d: ReceiptDTO)
    ensures
      var back := DTOToReceipt(ReceiptToDTO(r));
      && back == r.(receiptSignature := "")
      && (HashValid(lib, back) <==> HashValid(lib, r)) && (OpeningValid(lib, back) <==> OpeningValid(lib, r))
    ensures ReceiptToDTO(DTOToReceipt(d)) == d
  {
    ThereAndBack(r);
    BackAndThere(d);
    assert View(r.(receiptSignature := "")) == View(r);
  }

  // -------------------------------------------------------------------- rebuilt from the ledger

  datatype LedgerEndorsement = LedgerEndorsement(msp: string, certificate: string, signature: string)

  datatype TxInfo = TxInfo(txIndex: int, endorsements: seq<LedgerEndorsement>)

  function FromLedger(e: LedgerEndorsement): EndorsementInput {
    EndorsementInput(e.msp, "", e.certificate, e.signature, ZERO_TIME, false, false)
  }

  function AllFromLedger(es: seq<LedgerEndorsement>): seq<EndorsementInput> {
    seq(|es|, i requires 0 <= i < |es| => FromLedger(es[i]))
  }

  function RebuildInput(existing: Receipt, info: TxInfo): BuildInput {
    BuildInput(existing.txID, existing.commitmentHash, existing.commitmentOpening, existing.blockNumber,
               existing.blockHash, if info.txIndex > 0 then info.txIndex else existing.txIndex,
               existing.validationCode, AllFromLedger(info.endorsements), existing.originMSP, existing.policyID,
               existing.policyMet, existing.internalRef, TimeFromUnixMilli(existing.timestamps.clientSubmit),
               TimeFromUnixMilli(existing.timestamps.endorsementTime),
               TimeFromUnixMilli(existing.timestamps.blockCommit))
  }

  predicate Observed(o: Observation) { o.observedAt > 0 || o.anchorRef != "" || o.anchorType != "" }

  function Restored(built: Receipt, existing: Receipt): Receipt {
    built.(receiptSignature := existing.receiptSignature,
           commitmentAlgorithm := if existing.commitmentAlgorithm != "" then existing.commitmentAlgorithm
                                  else built.commitmentAlgorithm,
           observation := if Observed(existing.observation) then existing.observation else built.observation,
           timestamps := built.timestamps.(ordererReceive := existing.timestamps.ordererReceive))
  }

  method AppendCommittedEndorsements(es: seq<LedgerEndorsement>) returns (inputs: seq<EndorsementInput>)
    ensures inputs == AllFromLedger(es)
  {
    inputs := [];
    for i := 0 to |es|
      invariant |inputs| == i && forall j | 0 <= j < i :: inputs[j] == FromLedger(es[j])
    {
      inputs := inputs + [FromLedger(es[i])];
    }
  }

  /** `info` is the ledger's answer for the transaction, `created` the time of rebuilding. */
  method RebuildReceiptFromLedger(lib: Library, b: Builder, existing: Option<Receipt>, info: Result<TxInfo, string>,
                                  created: int)
    returns (r: Result<Option<Receipt>, string>)
    ensures existing.None? || existing.value.txID == "" ==> r == Ok(None)
    ensures existing.Some? && existing.value.txID != "" ==>
      match info
      case Err(e) => r == Err(e)
      case Ok(tx) =>
        r == Ok(if tx.endorsements == [] then None
                else Some(Restored(Built(lib, b, RebuildInput(existing.value, tx), created), existing.value)))
  {
    if existing.None? || existing.value.txID == "" {
      return Ok(None);
    }
    var old_ := existing.value;
    if info.Err? {
      return Err(info.error);
    }
    var tx := info.value;
    if |tx.endorsements| == 0 {
      return Ok(None);
    }
    var input := BuildInput(old_.txID, old_.commitmentHash, old_.commitmentOpening, old_.blockNumber, old_.blockHash,
                            old_.txIndex, old_.validationCode, [], old_.originMSP, old_.policyID, old_.policyMet,
                            old_.internalRef, TimeFromUnixMilli(old_.timestamps.clientSubmit),
                            TimeFromUnixMilli(old_.timestamps.endorsementTime),
                            TimeFromUnixMilli(old_.timestamps.blockCommit));
    if tx.txIndex > 0 {
      input := input.(txIndex := tx.txIndex);
    }
    var inputs := AppendCommittedEndorsements(tx.endorsements);
    input := input.(endorsements := inputs);
    var rebuilt := Build(lib, b, input, created);
    rebuilt := rebuilt.(receiptSignature := old_.receiptSignature);
    if old_.commitmentAlgorithm != "" {
      rebuilt := rebuilt.(commitmentAlgorithm := old_.commitmentAlgorithm);
    }
    if old_.observation.observedAt > 0 || old_.observation.anchorRef != "" || old_.observation.anchorType != "" {
      rebuilt := rebuilt.(observation := old_.observation);
    }
    rebuilt := rebuilt.(timestamps := rebuilt.timestamps.(ordererReceive := old_.timestamps.ordererReceive));
    return Ok(Some(rebuilt));
  }

  ghost predicate Injective(hash: HashView -> string) {
    forall a, b | hash(a) == hash(b) :: a == b
  }

  /** What the hash protects: a receipt under another's hash passes exactly when it agrees with it
      on these fields. */
  lemma HashCovers(lib: Library, r: Receipt, other: Receipt)
    requires Injective(lib.hashView)
    requires HashValid(lib, r) && other.receiptHash == r.receiptHash
    ensures HashValid(lib, other) <==>
      && other.schemaVersion == r.schemaVersion && other.channelID == r.channelID && other.txID == r.txID
      && other.commitmentHash == r.commitmentHash && other.commitmentOpening == r.commitmentOpening
      && other.commitmentAlgorithm == r.commitmentAlgorithm && other.blockNumber == r.blockNumber
      && other.blockHash == r.blockHash && other.validationCode == r.validationCode
      && other.endorsements == r.endorsements && other.originMSP == r.originMSP && other.policyID == r.policyID
      && other.policyMet == r.policyMet && other.timestamps == r.timestamps && other.observation == r.observation
  {
    assert HashValid(lib, other) <==> View(other) == View(r);
  }

  /** What rebuilding keeps of the stored receipt, and what it takes from the ledger: endorsements
      that are marked as not yet checked. */
  lemma RebuiltKeeps(lib: Library, b: Builder, existing: Receipt, info: TxInfo, created: int)
    ensures
      var rebuilt := Restored(Built(lib, b, RebuildInput(existing, info), created), existing);
      && rebuilt.txID == existing.txID && rebuilt.commitmentHash == existing.commitmentHash
      && rebuilt.commitmentOpening == existing.commitmentOpening && rebuilt.blockNumber == existing.blockNumber
      && rebuilt.blockHash == existing.blockHash && rebuilt.validationCode == existing.validationCode
      && rebuilt.originMSP == existing.originMSP && rebuilt.policyID == existing.policyID
      && rebuilt.policyMet == existing.policyMet && rebuilt.internalRef == existing.internalRef
      && rebuilt.receiptSignature == existing.receiptSignature
      && rebuilt.timestamps.ordererReceive == existing.timestamps.ordererReceive
      && rebuilt.txIndex == (if info.txIndex > 0 then info.txIndex else existing.txIndex)
      && (existing.commitmentAlgorithm != "" ==> rebuilt.commitmentAlgorithm == existing.commitmentAlgorithm)
      && (existing.observation != Observation(0, "", "") && existing.observation.observedAt >= 0 ==>
            rebuilt.observation == existing.observation)
      && (existing.timestamps.clientSubmit != 0 ==>
            rebuilt.timestamps.clientSubmit == existing.timestamps.clientSubmit)
      && (existing.timestamps.endorsementTime != 0 ==>
            rebuilt.timestamps.endorsementTime == existing.timestamps.endorsementTime)
      && (existing.timestamps.blockCommit != 0 ==> rebuilt.timestamps.blockCommit == existing.timestamps.blockCommit)
      && |rebuilt.endorsements| == |info.endorsements|
      && forall i | 0 <= i < |info.endorsements| ::
           rebuilt.endorsements[i].msp == info.endorsements[i].msp
           && rebuilt.endorsements[i].signatureHex == lib.hex(info.endorsements[i].signature)
           && !rebuilt.endorsements[i].signatureValid && !rebuilt.endorsements[i].certChainValid
  {
    MillisSurvive(existing.timestamps.clientSubmit);
    MillisSurvive(existing.timestamps.endorsementTime);
    MillisSurvive(existing.timestamps.blockCommit);
  }

  /** A caller can tell beforehand, from the stored receipt and the time, whether the rebuilt one
      will carry a hash that fits. */
  predicate RestoresWhatBuildMade(existing: Receipt, created: int) {
    && (existing.commitmentAlgorithm == "" || existing.commitmentAlgorithm == ALGORITHM)
    && (!Observed(existing.observation)
        || existing.observation == Observation(created, ANCHOR_TYPE, existing.blockHash))
    && existing.timestamps.ordererReceive == 0
  }

  /** A rebuilt receipt passes the hash check exactly when the fields restored after hashing are
      the ones that were hashed. */
  lemma RebuiltPassesIff(lib: Library, b: Builder, existing: Receipt, info: TxInfo, created: int)
    requires Injective(lib.hashView)
    ensures
      HashValid(lib, Restored(Built(lib, b, RebuildInput(existing, info), created), existing))
      <==> RestoresWhatBuildMade(existing, created)
  {
    var built := Built(lib, b, RebuildInput(existing, info), created);
    var rebuilt := Restored(built, existing);
    assert built.receiptHash == lib.hashView(View(built));
    assert HashValid(lib, rebuilt) <==> View(rebuilt) == View(built);
    assert View(rebuilt) == View(built) <==>
      rebuilt.commitmentAlgorithm == built.commitmentAlgorithm && rebuilt.observation == built.observation
      && rebuilt.timestamps == built.timestamps;
  }

  /** So a receipt that was built at one time and is rebuilt at another fails the check: the old
      observation comes back under a hash of the new one. The opening stays good. */
  lemma RebuiltLaterFails(lib: Library, b: Builder, input: BuildInput, info: TxInfo, first: int, later: int)
    requires Injective(lib.hashView)
    ensures
      var existing := Built(lib, b, input, first);
      var rebuilt := Restored(Built(lib, b, RebuildInput(existing, info), later), existing);
      && (HashValid(lib, rebuilt) <==> first == later)
      && (OpeningValid(lib, rebuilt) <==> OpeningValid(lib, existing))
  {
    RebuiltPassesIff(lib, b, Built(lib, b, input, first), info, later);
    assert Observed(Observation(first, ANCHOR_TYPE, input.blockHash));
  }

  /** The two conversions agree on every time but the start of 1970 itself. */
  lemma MillisSurvive(ms: int)
    ensures UnixMilli(TimeFromUnixMilli(ms)) == if ms == 0 then -62_135_596_800_000 else ms
  {
    assert ms * NANOS_PER_MILLI / NANOS_PER_MILLI == ms;
  }
}
