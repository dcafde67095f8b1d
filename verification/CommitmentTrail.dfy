/** One transfer from end to end: the commitment that the gateway computes, the receipt it builds,
    and the intent on the ledger. */
module CommitmentTrail {
  import opened Options
  import opened Receipts
  import EndorsementPolicy
  import RV = ReceiptVerification
  import Ledger = PaymentLedger

  datatype Transfer = Transfer(fromID: string, toID: string, amount: int, internalRef: string, timestamp: int,
                               nonce: string)

  datatype Gateway = Gateway(builder: Builder, msp: string, highRiskThreshold: int)

  function Opening(g: Gateway, t: Transfer): Commitment {
    Commitment(g.builder.channelID, g.builder.chaincodeID, "CreateTransferIntent", t.fromID, t.toID, t.amount,
               t.internalRef, t.timestamp, t.nonce)
  }

  function PolicyID(g: Gateway, amount: int): string {
    if amount >= g.highRiskThreshold then "high_risk" else "inter_bank_standard"
  }

  /** What the network reports about the committed transaction. */
  datatype Committed = Committed(blockNumber: nat, blockHash: string, txIndex: int, validationCode: int,
                                 policyMet: bool,
                                 endorsements: seq<EndorsementInput>, submitted: int, endorsed: int, committed: int)

  function InputFor(lib: Library, g: Gateway, t: Transfer, txId: string, c: Committed): BuildInput {
    BuildInput(txId, lib.hashCommitment(Opening(g, t)), Some(Opening(g, t)), c.blockNumber, c.blockHash, c.txIndex,
               c.validationCode, c.endorsements, g.msp, PolicyID(g, t.amount), c.policyMet, t.internalRef, c.submitted,
               c.endorsed, c.committed)
  }

  /** One submission, a proposal of its own with its own transaction id: whether it gets ordered,
      and whether the gateway learns that it committed. */
  datatype Try = Try(ctx: Ledger.Context, privateDataOk: bool, ordered: bool, acknowledged: bool)

  function CreateFor(lib: Library, g: Gateway, t: Transfer, try: Try): Ledger.Call {
    Ledger.Create(lib.hashCommitment(Opening(g, t)), t.internalRef, PolicyID(g, t.amount), try.privateDataOk)
  }

  function AfterTries(lib: Library, g: Gateway, t: Transfer, intents: Ledger.Intents, tries: seq<Try>): Ledger.Intents {
    if tries == [] then intents
    else
      var before, last := AfterTries(lib, g, t, intents, tries[..|tries| - 1]), tries[|tries| - 1];
      if last.ordered then Ledger.Commit(before, CreateFor(lib, g, t, last), last.ctx) else before
  }

  /** The try writes an intent. */
  predicate Lands(intents: Ledger.Intents, try: Try) {
    try.ordered && try.privateDataOk && try.ctx.txId !in intents
  }

  predicate Succeeds(intents: Ledger.Intents, try: Try) { Lands(intents, try) && try.acknowledged }

  /** The k-th try succeeds on the ledger that the tries before it leave. */
  predicate SucceedsAt(lib: Library, g: Gateway, t: Transfer, intents: Ledger.Intents, tries: seq<Try>, k: nat)
    requires k < |tries|
  {
    Succeeds(AfterTries(lib, g, t, intents, tries[..k]), tries[k])
  }

  /** Submits until the gateway learns of a success, then builds the receipt that vouches for it.
      `tries` are the submissions it would make, retries included; `n` of them are made. */
  method CompleteTransfer(lib: Library, g: Gateway, contract: Ledger.PaymentContract, t: Transfer, tries: seq<Try>,
                          c: Committed, created: int)
    returns (r: Option<Receipt>, n: nat)
    modifies contract
    ensures n <= |tries| && contract.intents == AfterTries(lib, g, t, old(contract.intents), tries[..n])
    ensures forall k: nat | k < |tries| && (k < n - 1 || r.None?) ::
      !SucceedsAt(lib, g, t, old(contract.intents), tries, k)
    ensures r.None? ==> n == |tries|
    ensures r.Some? ==>
      && n > 0 && SucceedsAt(lib, g, t, old(contract.intents), tries, n - 1)
      && r.value.txID == tries[n - 1].ctx.txId && r.value.txID !in old(contract.intents)
      && r.value.commitmentOpening == Some(Opening(g, t)) && Vouches(lib, r.value, contract.intents)
    ensures r.Some? ==>
      && r.value.commitmentOpening.Some? && r.value.internalRef == t.internalRef && r.value.originMSP == g.msp
      && r.value.policyID == (if t.amount >= g.highRiskThreshold then "high_risk" else "inter_bank_standard")
      && var opening := r.value.commitmentOpening.value;
      && opening.fromID == t.fromID && opening.toID == t.toID && opening.amount == t.amount
      && opening.nonce == t.nonce && opening.timestamp == t.timestamp && opening.internalRef == t.internalRef
      && opening.function_ == "CreateTransferIntent" && opening.channelID == g.builder.channelID
      && opening.chaincodeID == g.builder.chaincodeID
    ensures forall id | id in contract.intents && id !in old(contract.intents) ::
      contract.intents[id].commitmentHash == lib.hashCommitment(Opening(g, t))
  {
    var done;
    ghost var start := contract.intents;
    done, n := SubmitAll(lib, g, contract, t, tries);
    NewIntentsCarryTheCommitment(lib, g, t, start, tries[..n]);
    r := None;
    if done {
      OldIntentsStay(lib, g, t, start, tries[..n - 1]);
      var receipt := Build(lib, g.builder, InputFor(lib, g, t, tries[n - 1].ctx.txId, c), created);
      r := Some(receipt);
    }
  }

  /** The tries one after the other, up to the first that the gateway learns to have succeeded. */
  method SubmitAll(lib: Library, g: Gateway, contract: Ledger.PaymentContract, t: Transfer, tries: seq<Try>)
    returns (done: bool, n: nat)
    modifies contract
    ensures n <= |tries| && contract.intents == AfterTries(lib, g, t, old(contract.intents), tries[..n])
    ensures forall k: nat | k < |tries| && (k < n - 1 || !done) ::
      !SucceedsAt(lib, g, t, old(contract.intents), tries, k)
    ensures !done ==> n == |tries|
    ensures done ==>
      && n > 0 && SucceedsAt(lib, g, t, old(contract.intents), tries, n - 1)
      && tries[n - 1].ctx.txId in contract.intents
      && contract.intents[tries[n - 1].ctx.txId].commitmentHash == lib.hashCommitment(Opening(g, t))
  {
    done, n := false, 0;
    ghost var start := contract.intents;
    while n < |tries| && !done
      invariant n <= |tries| && contract.intents == AfterTries(lib, g, t, start, tries[..n])
      invariant forall k: nat | k < n && (k < n - 1 || !done) ::
        !SucceedsAt(lib, g, t, start, tries, k)
      invariant done ==>
        && n > 0 && SucceedsAt(lib, g, t, start, tries, n - 1)
        && tries[n - 1].ctx.txId in contract.intents
        && contract.intents[tries[n - 1].ctx.txId].commitmentHash == lib.hashCommitment(Opening(g, t))
    {
      assert tries[..n + 1][..n] == tries[..n];
      done := Submit(lib, g, contract, t, tries[n]);
      n := n + 1;
    }
  }

  /** One try; `done` when the gateway learns that its intent was written. */
  method Submit(lib: Library, g: Gateway, contract: Ledger.PaymentContract, t: Transfer, try: Try) returns (done: bool)
    modifies contract
    ensures done <==> Succeeds(old(contract.intents), try)
    ensures contract.intents ==
      if try.ordered then Ledger.Commit(old(contract.intents), CreateFor(lib, g, t, try), try.ctx)
      else old(contract.intents)
    ensures done ==> try.ctx.txId in contract.intents
                     && contract.intents[try.ctx.txId].commitmentHash == lib.hashCommitment(Opening(g, t))
  {
    if !try.ordered {
      return false;
    }
    var hash := lib.hashCommitment(Opening(g, t));
    var error := contract.CreateTransferIntent(hash, t.internalRef, PolicyID(g, t.amount), try.privateDataOk, try.ctx);
    return error.None? && try.acknowledged;
  }

  lemma {:induction false} OldIntentsStay(lib: Library, g: Gateway, t: Transfer, intents: Ledger.Intents,
                                          tries: seq<Try>)
    ensures
      var after := AfterTries(lib, g, t, intents, tries);
      forall id | id in intents :: id in after && after[id] == intents[id]
  {
    if tries != [] {
      OldIntentsStay(lib, g, t, intents, tries[..|tries| - 1]);
    }
  }

  /** Whatever became of the tries, every intent they wrote carries this transfer's commitment, and
      is one of theirs. */
  lemma {:induction false} NewIntentsCarryTheCommitment(lib: Library, g: Gateway, t: Transfer, intents: Ledger.Intents,
                                                        tries: seq<Try>)
    ensures
      var after := AfterTries(lib, g, t, intents, tries);
      forall id | id in after && id !in intents ::
        && after[id].commitmentHash == lib.hashCommitment(Opening(g, t))
        && exists k :: 0 <= k < |tries| && tries[k].ordered && tries[k].ctx.txId == id
  {
    if tries != [] {
      var front := tries[..|tries| - 1];
      NewIntentsCarryTheCommitment(lib, g, t, intents, front);
      var before, after := AfterTries(lib, g, t, intents, front), AfterTries(lib, g, t, intents, tries);
      forall id | id in after && id !in intents
        ensures after[id].commitmentHash == lib.hashCommitment(Opening(g, t))
        ensures exists k :: 0 <= k < |tries| && tries[k].ordered && tries[k].ctx.txId == id
      {
        if id in before {
          var k :| 0 <= k < |front| && front[k].ordered && front[k].ctx.txId == id;
          assert tries[k].ordered && tries[k].ctx.txId == id;
        } else {
          assert tries[|tries| - 1].ordered && tries[|tries| - 1].ctx.txId == id;
        }
      }
    }
  }

  lemma {:induction false} LandedStays(lib: Library, g: Gateway, t: Transfer, intents: Ledger.Intents, tries: seq<Try>,
                                       k: nat)
    requires k < |tries| && Lands(AfterTries(lib, g, t, intents, tries[..k]), tries[k])
    ensures tries[k].ctx.txId in AfterTries(lib, g, t, intents, tries) && tries[k].ctx.txId !in intents
  {
    var front := tries[..|tries| - 1];
    if k < |front| {
      assert front[..k] == tries[..k];
      LandedStays(lib, g, t, intents, front, k);
    } else {
      OldIntentsStay(lib, g, t, intents, front);
    }
  }

  lemma {:induction false} NoneLandsNothingWritten(lib: Library, g: Gateway, t: Transfer, intents: Ledger.Intents,
                                                   tries: seq<Try>)
    requires forall k: nat | k < |tries| :: !Lands(AfterTries(lib, g, t, intents, tries[..k]), tries[k])
    ensures AfterTries(lib, g, t, intents, tries) == intents
  {
    if tries != [] {
      var front := tries[..|tries| - 1];
      assert forall k: nat | k < |front| :: front[..k] == tries[..k];
      NoneLandsNothingWritten(lib, g, t, intents, front);
      assert !Lands(AfterTries(lib, g, t, intents, front), tries[|front|]);
    }
  }

  /** An error answer means that nothing was written exactly when no try landed; one that landed
      without being acknowledged stays. */
  lemma NothingWrittenIff(lib: Library, g: Gateway, t: Transfer, intents: Ledger.Intents, tries: seq<Try>)
    ensures AfterTries(lib, g, t, intents, tries) == intents <==>
      forall k: nat | k < |tries| :: !Lands(AfterTries(lib, g, t, intents, tries[..k]), tries[k])
  {
    if k: nat :| k < |tries| && Lands(AfterTries(lib, g, t, intents, tries[..k]), tries[k]) {
      LandedStays(lib, g, t, intents, tries, k);
    } else {
      NoneLandsNothingWritten(lib, g, t, intents, tries);
    }
  }

  /** The receipt checks out on its own, and the ledger holds the very commitment it names. */
  predicate Vouches(lib: Library, r: Receipt, intents: Ledger.Intents) {
    && HashValid(lib, r) && r.commitmentOpening.Some? && OpeningValid(lib, r)
    && r.txID in intents && intents[r.txID].commitmentHash == r.commitmentHash
  }

  /** A receipt that vouches goes on doing so after any later ledger calls and after a trip over
      the wire; the ledger confirms its commitment and no other. */
  lemma VouchesForever(lib: Library, r: Receipt, intents: Ledger.Intents, calls: seq<Ledger.Invocation>, hash: string)
    requires Vouches(lib, r, intents)
    ensures Vouches(lib, DTOToReceipt(ReceiptToDTO(r)), Ledger.Run(intents, calls))
    ensures Ledger.Verify(Ledger.Run(intents, calls), r.txID, hash) ==
            Ok(hash == lib.hashCommitment(r.commitmentOpening.value))
  {
    RoundTrip(lib, r, ReceiptToDTO(r));
    Ledger.IntentEndures(intents, calls, r.txID);
  }

  /** A gateway receipt passes full verification against the commitment on the ledger exactly when
      the transaction is valid, someone endorsed it, and the policy accepts the endorsements or
      none of them carries any proof. */
  lemma GatewayReceiptVerifies(lib: Library, x: RV.X509, v: RV.Verifier, g: Gateway, t: Transfer, txId: string,
                               c: Committed,
                               created: int, now: int)
    ensures
      var r := Built(lib, g.builder, InputFor(lib, g, t, txId, c), created);
      RV.Trustworthy(lib, x, v, r, lib.hashCommitment(Opening(g, t)), now) <==>
        && c.validationCode == 0 && c.endorsements != []
        && (|| EndorsementPolicy.Accepts(EndorsementPolicy.Configured(v.policies, PolicyID(g, t.amount)),
                                         RV.ValidMSPs(lib, x, v, r.endorsements, now))
            || forall e | e in c.endorsements ::
                 (e.certPEM == "" || !g.builder.includeFullCerts) && !e.signatureValid && !e.certChainValid)
  {
    var r := Built(lib, g.builder, InputFor(lib, g, t, txId, c), created);
    BareRecords(lib, g.builder.includeFullCerts, c.endorsements);
    assert r.endorsements == AllRecorded(lib, g.builder.includeFullCerts, c.endorsements);
  }

  lemma BareRecords(lib: Library, full: bool, es: seq<EndorsementInput>)
    ensures (forall e | e in AllRecorded(lib, full, es) :: RV.Bare(e)) <==>
            forall e | e in es :: (e.certPEM == "" || !full) && !e.signatureValid && !e.certChainValid
  {
    var records := AllRecorded(lib, full, es);
    assert forall i | 0 <= i < |es| :: records[i] == Recorded(lib, full, es[i]);
    if forall e | e in records :: RV.Bare(e) {
      forall e | e in es ensures (e.certPEM == "" || !full) && !e.signatureValid && !e.certChainValid {
        var i :| 0 <= i < |es| && es[i] == e;
        assert RV.Bare(records[i]);
      }
    }
  }
}
