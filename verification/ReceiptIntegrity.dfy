/** The integrity block that is signed over a receipt's canonical text and attached to it. */
module ReceiptIntegrity {
  import opened Options
  import opened JsonText
  import opened Utf8
  import opened Sorting
  import opened CanonicalJson
  import opened JsonReader
  import opened JsonRoundTrip
  import opened CanonicalJsonExact
  import opened CanonicalJsonTies

  /** The code units of a text in plain ASCII. */
  function Ascii(s: string): (t: Text)
    ensures |t| == |s| && forall i | 0 <= i < |s| && s[i] <= '~' :: t[i] == s[i] as int
  {
    seq(|s|, i requires 0 <= i < |s| => if s[i] < 0x7f as char then s[i] as int else 0x3f)
  }

  const INTEGRITY_KEY: Text := Ascii("receipt_integrity")

  /** The library functions and the signing key's identity. */
  datatype Crypto = Crypto(
    sha256: seq<Byte> -> Text, sha3: seq<Byte> -> Text, sign: seq<Byte> -> Text, keyId: Text, fingerprint: Text)

  datatype Timestamping = NotConfigured | Attested(attestation: Value) | FailedClosed

  function Field(name: string, v: Value): Member {
    Member(Ascii(name), v)
  }

  function Hashes(c: Crypto, bytes: seq<Byte>): Value {
    var sha256, sha3 := c.sha256(bytes), c.sha3(bytes);
    Obj([
      Field("sha256", Str(sha256)),
      Field("sha3_256", Str(sha3)),
      Field("combined_sha256", Str(c.sha256(Encode(sha256 + [COLON] + sha3))))])
  }

  function Signature(c: Crypto, bytes: seq<Byte>, signedAt: Numeral): Value {
    Obj([
      Field("algorithm", Str(Ascii("ed25519"))),
      Field("key_id", Str(c.keyId)),
      Field("signature_base64", Str(c.sign(bytes))),
      Field("signed_at", Number(signedAt))])
  }

  function Signer(c: Crypto): Value { Obj([Field("public_key_fingerprint_sha256", Str(c.fingerprint))]) }

  function IntegrityBlock(c: Crypto, text: Text, signedAt: Numeral, tsa: Timestamping): Value {
    Obj([
      Field("version", Str(Ascii("v1"))),
      Field("canonicalization", Str(Ascii("json-sorted-v1"))),
      Field("hashes", Hashes(c, Encode(text))),
      Field("signature", Signature(c, Encode(text), signedAt)),
      Field("signer", Signer(c))]
      + if tsa.Attested? then [Field("tsa_attestation", tsa.attestation)] else [])
  }

  /** `delete record[k]`. */
  function Without(ms: seq<Member>, k: Text): seq<Member> {
    if ms == [] then []
    else if ms[0].key == k then Without(ms[1..], k)
    else [ms[0]] + Without(ms[1..], k)
  }

  /** `record[k] = v`: in place when the key is there, else at the end. */
  function Assign(ms: seq<Member>, k: Text, v: Value): seq<Member> {
    if ms == [] then [Member(k, v)]
    else if ms[0].key == k then [Member(k, v)] + ms[1..]
    else [ms[0]] + Assign(ms[1..], k, v)
  }

  /** The text that is hashed and signed for a receipt: everything but an integrity block. */
  function SignedText(le: KeyOrder, ms: seq<Member>): Text {
    CanonicalStringify(le, Obj(Without(ms, INTEGRITY_KEY)))
  }

  /** The enriched receipt. A property set on an array is not serialised. */
  function Enriched(c: Crypto, le: KeyOrder, receipt: Value, signedAt: Numeral, tsa: Timestamping): Value {
    match receipt
    case Obj(ms) => Obj(Assign(ms, INTEGRITY_KEY, IntegrityBlock(c, SignedText(le, ms), signedAt, tsa)))
    case _ => receipt
  }

  class AnchorResult {
    var receiptJson: Text

    constructor (receiptJson: Text)
      ensures this.receiptJson == receiptJson
    {
      this.receiptJson := receiptJson;
    }
  }

  class ReceiptSigner {
    const crypto: Crypto
    const keyOrder: KeyOrder
    const parse: Text -> Option<Value>
    const signingEnabled: bool
    const hasPrivateKey: bool

    constructor (crypto: Crypto, keyOrder: KeyOrder, parse: Text -> Option<Value>, enabled: bool, hasKey: bool)
      ensures this.crypto == crypto && this.keyOrder == keyOrder && this.parse == parse
      ensures signingEnabled == enabled && hasPrivateKey == hasKey
    {
      this.crypto, this.keyOrder, this.parse := crypto, keyOrder, parse;
      signingEnabled, hasPrivateKey := enabled, hasKey;
    }

    /** The receipt is signed when signing is on, there is a key and a receipt, and it parses as an
        object or an array. */
    predicate Signs(json: Text) {
      && signingEnabled && json != [] && hasPrivateKey
      && parse(json).Some? && (parse(json).value.Obj? || parse(json).value.Arr?)
    }

    /** `throws`: hashing or signing raises an exception, which is caught. */
    method Enrich(result: AnchorResult, signedAt: Numeral, tsa: Timestamping, throws: bool)
      modifies result
      ensures result.receiptJson ==
        if Signs(old(result.receiptJson)) && !throws && tsa != FailedClosed
        then Spell(Enriched(crypto, keyOrder, parse(old(result.receiptJson)).value, signedAt, tsa))
        else old(result.receiptJson)
      ensures !signingEnabled || !hasPrivateKey || old(result.receiptJson) == []
              || parse(old(result.receiptJson)) == None || throws || tsa == FailedClosed ==>
        result.receiptJson == old(result.receiptJson)
      ensures
        signingEnabled && hasPrivateKey && old(result.receiptJson) != [] && !throws && tsa != FailedClosed
        && parse(old(result.receiptJson)).Some? && parse(old(result.receiptJson)).value.Obj? ==>
        result.receiptJson == Spell(Enriched(crypto, keyOrder, parse(old(result.receiptJson)).value, signedAt, tsa))
    {
      if !signingEnabled || result.receiptJson == [] {
        return;
      }
      if !hasPrivateKey {
        return;
      }
      var decoded := parse(result.receiptJson);
      if decoded.None? {
        return;
      }
      match decoded.value
      case Obj(ms) =>
        var receipt := ms;
        var payload := Without(receipt, INTEGRITY_KEY);
        var canonicalPayload := CanonicalStringify(keyOrder, Obj(payload));
        if throws || tsa.FailedClosed? {
          return;
        }
        receipt := Assign(receipt, INTEGRITY_KEY, IntegrityBlock(crypto, canonicalPayload, signedAt, tsa));
        result.receiptJson := Spell(Obj(receipt));
      case Arr(items) =>
        if throws || tsa.FailedClosed? {
          return;
        }
        result.receiptJson := Spell(decoded.value);
      case _ =>
    }
  }

  // --------------------------------------------------------------- properties

  lemma {:induction false} WithoutKeepsTheRest(ms: seq<Member>, k: Text)
    requires DistinctKeys(ms)
    ensures DistinctKeys(Without(ms, k))
    ensures forall m :: m in Without(ms, k) <==> m in ms && m.key != k
    ensures |Without(ms, k)| == |ms| - if k in Keys(ms) then 1 else 0
  {
    if ms != [] {
      assert Keys(ms) == [ms[0].key] + Keys(ms[1..]);
      assert ms == [ms[0]] + ms[1..];
      WithoutKeepsTheRest(ms[1..], k);
      var rest := Without(ms[1..], k);
      forall j | 0 <= j < |rest| ensures rest[j].key != ms[0].key {
        assert rest[j] in ms[1..];
      }
      assert forall i | 0 <= i < |ms[1..]| :: ms[1..][i].key != ms[0].key;
    }
  }

  lemma {:induction false} AssignThenDelete(ms: seq<Member>, k: Text, v: Value)
    ensures Without(Assign(ms, k, v), k) == Without(ms, k)
    ensures k in Keys(Assign(ms, k, v)) && Lookup(Assign(ms, k, v), k) == v
  {
    var r := Assign(ms, k, v);
    assert r != [] && Keys(r) == [r[0].key] + Keys(r[1..]);
    if ms != [] && ms[0].key != k {
      AssignThenDelete(ms[1..], k, v);
    } else if ms != [] {
      assert r[1..] == ms[1..];
    }
  }

  lemma PartnerOf(ms: seq<Member>, ns: seq<Member>, p: nat) returns (q: nat)
    requires Same(Obj(ms), Obj(ns)) && p < |ms|
    ensures q < |ns| && ms[p].key == ns[q].key && Same(ms[p].value, ns[q].value)
  {
    var v, w := Obj(ms), Obj(ns);
    assert HasPartner(v, w, p);
    q :| 0 <= q < |w.members| && v.members[p].key == w.members[q].key && Same(v.members[p].value, w.members[q].value);
  }

  function KeySet(ms: seq<Member>): set<Text> {
    set m | m in ms :: m.key
  }

  lemma {:induction false} KeySetSize(ms: seq<Member>)
    requires DistinctKeys(ms)
    ensures |KeySet(ms)| == |ms| && forall k :: k in KeySet(ms) <==> k in Keys(ms)
  {
    if ms != [] {
      KeySetSize(ms[1..]);
      assert ms == [ms[0]] + ms[1..];
      assert Keys(ms) == [ms[0].key] + Keys(ms[1..]);
      assert KeySet(ms) == {ms[0].key} + KeySet(ms[1..]);
      assert ms[0].key !in KeySet(ms[1..]);
    }
  }

  lemma SameKeys(ms: seq<Member>, ns: seq<Member>)
    requires DistinctKeys(ms) && DistinctKeys(ns) && Same(Obj(ms), Obj(ns))
    ensures forall k :: k in Keys(ms) <==> k in Keys(ns)
  {
    KeySetSize(ms);
    KeySetSize(ns);
    forall m | m in ms ensures m.key in KeySet(ns) {
      var p :| 0 <= p < |ms| && ms[p] == m;
      var q := PartnerOf(ms, ns, p);
      assert ns[q] in ns;
    }
    assert KeySet(ms) <= KeySet(ns);
    assert |KeySet(ns) - KeySet(ms)| == 0;
  }

  lemma PartnerAfter(ms: seq<Member>, ns: seq<Member>, a: seq<Member>, b: seq<Member>, k: Text, i: nat) returns (j: nat)
    requires Same(Obj(ms), Obj(ns)) && i < |a|
    requires forall m | m in a :: m in ms && m.key != k
    requires forall m | m in ns && m.key != k :: m in b
    ensures j < |b| && a[i].key == b[j].key && Same(a[i].value, b[j].value)
  {
    var m := a[i];
    assert m in a;
    var p :| 0 <= p < |ms| && ms[p] == m;
    var q := PartnerOf(ms, ns, p);
    var n := ns[q];
    assert n in ns && n.key != k;
    j :| 0 <= j < |b| && b[j] == n;
  }

  lemma SameAfterDelete(ms: seq<Member>, ns: seq<Member>, k: Text)
    requires DistinctKeys(ms) && DistinctKeys(ns) && Same(Obj(ms), Obj(ns))
    ensures Same(Obj(Without(ms, k)), Obj(Without(ns, k)))
  {
    WithoutKeepsTheRest(ms, k);
    WithoutKeepsTheRest(ns, k);
    SameKeys(ms, ns);
    var v, w := Obj(Without(ms, k)), Obj(Without(ns, k));
    forall i | 0 <= i < |v.members| ensures HasPartner(v, w, i) {
      var j := PartnerAfter(ms, ns, v.members, w.members, k, i);
    }
  }

  /** Re-ordering the keys of a receipt, anywhere in it, does not change what was signed. */
  lemma SignatureSurvivesReordering(le: KeyOrder, ms: seq<Member>, ns: seq<Member>)
    requires TotalPreorder(le) && Untied(le, Obj(Without(ms, INTEGRITY_KEY)))
    requires WellFormed(Obj(ms)) && WellFormed(Obj(ns)) && Same(Obj(ms), Obj(ns))
    ensures SignedText(le, ms) == SignedText(le, ns)
  {
    SameAfterDelete(ms, ns, INTEGRITY_KEY);
    WithoutIsWellFormed(ms, INTEGRITY_KEY);
    WithoutIsWellFormed(ns, INTEGRITY_KEY);
    CanonicalPrintingIsExact(le, Obj(Without(ms, INTEGRITY_KEY)), Obj(Without(ns, INTEGRITY_KEY)));
  }

  lemma WithoutIsWellFormed(ms: seq<Member>, k: Text)
    requires WellFormed(Obj(ms))
    ensures WellFormed(Obj(Without(ms, k)))
  {
    WithoutKeepsTheRest(ms, k);
    forall i | 0 <= i < |Without(ms, k)| ensures WellFormed(Without(ms, k)[i].value) {
      assert Without(ms, k)[i] in ms;
    }
  }

  /** With a collision-free hash, two receipts share a hash exactly when they agree, up to key
      order, on everything outside the integrity block. */
  lemma HashIdentifiesThePayload(c: Crypto, le: KeyOrder, ms: seq<Member>, ns: seq<Member>)
    requires TotalPreorder(le) && Untied(le, Obj(Without(ms, INTEGRITY_KEY)))
    requires WellFormed(Obj(ms)) && WellFormed(Obj(ns))
    requires forall s, t :: c.sha256(s) == c.sha256(t) ==> s == t
    ensures c.sha256(Encode(SignedText(le, ms))) == c.sha256(Encode(SignedText(le, ns))) <==>
            Same(Obj(Without(ms, INTEGRITY_KEY)), Obj(Without(ns, INTEGRITY_KEY)))
  {
    WithoutIsWellFormed(ms, INTEGRITY_KEY);
    WithoutIsWellFormed(ns, INTEGRITY_KEY);
    CanonicalPrintingIsExact(le, Obj(Without(ms, INTEGRITY_KEY)), Obj(Without(ns, INTEGRITY_KEY)));
    CanonicalTextEncodesLosslessly(le, Obj(Without(ms, INTEGRITY_KEY)), Obj(Without(ns, INTEGRITY_KEY)));
  }

  // ------------------------------------------------------------ the published text

  /** A reader gives back what was printed, up to the order of keys. */
  ghost predicate ReadsBack(parse: Text -> Option<Value>) {
    forall v | Plain(v) && WellFormed(v) ::
      parse(Spell(v)).Some? && WellFormed(parse(Spell(v)).value) && Same(v, parse(Spell(v)).value)
  }

  /** The grammar's own reader is such a reader. */
  ghost function GrammarReader(t: Text): Option<Value> {
    if ReadText(t).Read? then Some(ReadText(t).value) else None
  }

  lemma GrammarReadsBack(parse: Text -> Option<Value>)
    requires forall t :: parse(t) == GrammarReader(t)
    ensures ReadsBack(parse)
  {
    forall v | Plain(v) && WellFormed(v)
      ensures parse(Spell(v)).Some? && WellFormed(parse(Spell(v)).value) && Same(v, parse(Spell(v)).value)
    {
      TextReads(v);
      SameAsItself(v);
    }
  }

  lemma {:induction false} AssignKeepsShape(ms: seq<Member>, k: Text, v: Value)
    requires WellFormed(Obj(ms)) && Plain(Obj(ms)) && WellFormed(v) && Plain(v)
    ensures WellFormed(Obj(Assign(ms, k, v))) && Plain(Obj(Assign(ms, k, v)))
    ensures forall m | m in Assign(ms, k, v) :: m.key == k || m in ms
  {
    if ms != [] {
      assert forall i | 0 <= i < |ms[1..]| :: ms[1..][i] == ms[i + 1];
      if ms[0].key != k {
        AssignKeepsShape(ms[1..], k, v);
        var rest := Assign(ms[1..], k, v);
        forall i | 0 <= i < |rest| ensures rest[i].key != ms[0].key { assert rest[i] in rest; }
      }
    }
  }

  lemma HashesShape(c: Crypto, bytes: seq<Byte>)
    ensures WellFormed(Hashes(c, bytes)) && Plain(Hashes(c, bytes))
  {
    assert |Ascii("sha256")| == 6 && |Ascii("sha3_256")| == 8 && |Ascii("combined_sha256")| == 15;
  }

  lemma SignatureShape(c: Crypto, bytes: seq<Byte>, signedAt: Numeral)
    ensures WellFormed(Signature(c, bytes, signedAt)) && Plain(Signature(c, bytes, signedAt))
  {
    assert |Ascii("algorithm")| == 9 && |Ascii("key_id")| == 6 && |Ascii("signature_base64")| == 16;
    assert |Ascii("signed_at")| == 9 && Ascii("algorithm")[0] != Ascii("signed_at")[0];
  }

  lemma BlockShape(c: Crypto, text: Text, signedAt: Numeral, tsa: Timestamping)
    requires tsa.Attested? ==> WellFormed(tsa.attestation) && Plain(tsa.attestation)
    ensures WellFormed(IntegrityBlock(c, text, signedAt, tsa)) && Plain(IntegrityBlock(c, text, signedAt, tsa))
  {
    HashesShape(c, Encode(text));
    SignatureShape(c, Encode(text), signedAt);
    assert WellFormed(Signer(c)) && Plain(Signer(c));
    FieldsShape(Str(Ascii("v1")), Str(Ascii("json-sorted-v1")), Hashes(c, Encode(text)),
                Signature(c, Encode(text), signedAt), Signer(c),
                if tsa.Attested? then [Field("tsa_attestation", tsa.attestation)] else []);
  }

  lemma FieldsShape(version: Value, form: Value, hashes: Value, signature: Value, signer: Value, tsa: seq<Member>)
    requires forall v | v in [version, form, hashes, signature, signer] :: WellFormed(v) && Plain(v)
    requires |tsa| <= 1
    requires forall m | m in tsa :: m.key == Ascii("tsa_attestation") && WellFormed(m.value) && Plain(m.value)
    ensures
      var block := Obj([Field("version", version), Field("canonicalization", form), Field("hashes", hashes),
                        Field("signature", signature), Field("signer", signer)] + tsa);
      WellFormed(block) && Plain(block)
  {
    var five := [version, form, hashes, signature, signer];
    var ms := [Field("version", version), Field("canonicalization", form), Field("hashes", hashes),
               Field("signature", signature), Field("signer", signer)] + tsa;
    forall i | 0 <= i < |ms| ensures WellFormed(ms[i].value) && Plain(ms[i].value) {
      if i < 5 {
        assert ms[i].value == five[i] && five[i] in five;
      } else {
        assert ms[i] in tsa;
      }
    }
    BlockNames(ms);
  }

  lemma BlockNames(ms: seq<Member>)
    requires 5 <= |ms| <= 6 && ms[0].key == Ascii("version") && ms[1].key == Ascii("canonicalization")
    requires ms[2].key == Ascii("hashes") && ms[3].key == Ascii("signature") && ms[4].key == Ascii("signer")
    requires |ms| == 6 ==> ms[5].key == Ascii("tsa_attestation")
    ensures DistinctKeys(ms)
  {
    assert |ms[0].key| == 7 && |ms[1].key| == 16 && |ms[2].key| == 6 && |ms[3].key| == 9 && |ms[4].key| == 6;
    assert |ms| == 6 ==> |ms[5].key| == 15;
    assert ms[2].key[0] != ms[4].key[0];
  }

  /** For any block: what a reader gets back of a receipt it was put into. */
  lemma ReadBack(parse: Text -> Option<Value>, le: KeyOrder, ms: seq<Member>, block: Value)
    requires ReadsBack(parse) && TotalPreorder(le) && Untied(le, Obj(Without(ms, INTEGRITY_KEY)))
    requires WellFormed(Obj(ms)) && Plain(Obj(ms)) && WellFormed(block) && Plain(block)
    ensures
      var back := parse(Spell(Obj(Assign(ms, INTEGRITY_KEY, block))));
      && back.Some? && back.value.Obj? && INTEGRITY_KEY in Keys(back.value.members)
      && SignedText(le, back.value.members) == SignedText(le, ms)
      && Same(block, Lookup(back.value.members, INTEGRITY_KEY))
  {
    var published := Assign(ms, INTEGRITY_KEY, block);
    AssignKeepsShape(ms, INTEGRITY_KEY, block);
    AssignThenDelete(ms, INTEGRITY_KEY, block);
    assert Same(Obj(published), parse(Spell(Obj(published))).value);
    var back := parse(Spell(Obj(published))).value;
    assert back.Obj?;
    ReorderedBack(le, ms, block, published, back.members);
  }

  lemma ReorderedBack(le: KeyOrder, ms: seq<Member>, block: Value, published: seq<Member>, back: seq<Member>)
    requires TotalPreorder(le) && Untied(le, Obj(Without(ms, INTEGRITY_KEY)))
    requires Without(published, INTEGRITY_KEY) == Without(ms, INTEGRITY_KEY)
    requires INTEGRITY_KEY in Keys(published) && Lookup(published, INTEGRITY_KEY) == block
    requires WellFormed(Obj(published)) && WellFormed(Obj(back)) && Same(Obj(published), Obj(back))
    ensures INTEGRITY_KEY in Keys(back) && Same(block, Lookup(back, INTEGRITY_KEY))
    ensures SignedText(le, back) == SignedText(le, ms)
  {
    SignatureSurvivesReordering(le, published, back);
    BlockIsFound(published, back, INTEGRITY_KEY);
  }

  /** Whoever reads the text that signing leaves behind, in whatever key order, recovers by deleting
      the block the very text that was hashed and signed, and finds a block with its hashes and
      signature. */
  lemma PublishedTextVerifies(parse: Text -> Option<Value>, c: Crypto, le: KeyOrder, ms: seq<Member>,
                              signedAt: Numeral, tsa: Timestamping)
    requires ReadsBack(parse) && TotalPreorder(le) && Untied(le, Obj(Without(ms, INTEGRITY_KEY)))
    requires WellFormed(Obj(ms)) && Plain(Obj(ms))
    requires tsa.Attested? ==> WellFormed(tsa.attestation) && Plain(tsa.attestation)
    ensures
      var back := parse(Spell(Enriched(c, le, Obj(ms), signedAt, tsa)));
      && back.Some? && back.value.Obj? && INTEGRITY_KEY in Keys(back.value.members)
      && SignedText(le, back.value.members) == SignedText(le, ms)
      && Same(IntegrityBlock(c, SignedText(le, back.value.members), signedAt, tsa),
              Lookup(back.value.members, INTEGRITY_KEY))
  {
    BlockShape(c, SignedText(le, ms), signedAt, tsa);
    ReadBack(parse, le, ms, IntegrityBlock(c, SignedText(le, ms), signedAt, tsa));
  }

  ghost predicate Says(v: Value, name: string, w: Value) { v.Obj? && Member(Ascii(name), w) in v.members }

  ghost predicate SaysText(v: Value, name: string, t: Text) { Says(v, name, Str(t)) }

  lemma SaysAt(v: Value, i: nat, name: string, w: Value)
    requires v.Obj? && i < |v.members| && v.members[i] == Field(name, w)
    ensures Says(v, name, w)
  {}

  lemma HashesHold(c: Crypto, bytes: seq<Byte>)
    ensures SaysText(Hashes(c, bytes), "sha256", c.sha256(bytes))
    ensures SaysText(Hashes(c, bytes), "sha3_256", c.sha3(bytes))
    ensures SaysText(Hashes(c, bytes), "combined_sha256",
                     c.sha256(Encode(c.sha256(bytes) + Ascii(":") + c.sha3(bytes))))
  {
    var hashes, combined := Hashes(c, bytes), c.sha256(bytes) + Ascii(":") + c.sha3(bytes);
    assert Ascii(":") == [COLON];
    SaysAt(hashes, 0, "sha256", Str(c.sha256(bytes)));
    SaysAt(hashes, 1, "sha3_256", Str(c.sha3(bytes)));
    SaysAt(hashes, 2, "combined_sha256", Str(c.sha256(Encode(combined))));
  }

  lemma SignatureHolds(c: Crypto, bytes: seq<Byte>, signedAt: Numeral)
    ensures
      var signature := Signature(c, bytes, signedAt);
      && SaysText(signature, "algorithm", Ascii("ed25519")) && SaysText(signature, "key_id", c.keyId)
      && SaysText(signature, "signature_base64", c.sign(bytes)) && Says(signature, "signed_at", Number(signedAt))
  {
    var signature := Signature(c, bytes, signedAt);
    SaysAt(signature, 0, "algorithm", Str(Ascii("ed25519")));
    SaysAt(signature, 1, "key_id", Str(c.keyId));
    SaysAt(signature, 2, "signature_base64", Str(c.sign(bytes)));
    SaysAt(signature, 3, "signed_at", Number(signedAt));
  }

  /** The block holds both hashes of the text's bytes and the hash that combines them, the key's
      signature of those bytes, and the attestation if there is one. */
  lemma BlockHolds(c: Crypto, text: Text, signedAt: Numeral, tsa: Timestamping)
    ensures
      var block, bytes := IntegrityBlock(c, text, signedAt, tsa), Encode(text);
      && (exists hashes ::
            && Says(block, "hashes", hashes)
            && SaysText(hashes, "sha256", c.sha256(bytes)) && SaysText(hashes, "sha3_256", c.sha3(bytes))
            && SaysText(hashes, "combined_sha256", c.sha256(Encode(c.sha256(bytes) + Ascii(":") + c.sha3(bytes)))))
      && (exists signature ::
            && Says(block, "signature", signature)
            && SaysText(signature, "algorithm", Ascii("ed25519")) && SaysText(signature, "key_id", c.keyId)
            && SaysText(signature, "signature_base64", c.sign(bytes)))
      && (tsa.Attested? ==> Says(block, "tsa_attestation", tsa.attestation))
  {
    var block, bytes := IntegrityBlock(c, text, signedAt, tsa), Encode(text);
    SaysAt(block, 2, "hashes", Hashes(c, bytes));
    SaysAt(block, 3, "signature", Signature(c, bytes, signedAt));
    HashesHold(c, bytes);
    SignatureHolds(c, bytes, signedAt);
    if tsa.Attested? {
      SaysAt(block, 5, "tsa_attestation", tsa.attestation);
    }
  }

  lemma BlockIsFound(ms: seq<Member>, ns: seq<Member>, k: Text)
    requires WellFormed(Obj(ms)) && WellFormed(Obj(ns)) && Same(Obj(ms), Obj(ns)) && k in Keys(ms)
    ensures k in Keys(ns) && Same(Lookup(ms, k), Lookup(ns, k))
  {
    var p :| 0 <= p < |ms| && ms[p].key == k && Lookup(ms, k) == ms[p].value;
    var q := PartnerOf(ms, ns, p);
    LookupFinds(ns, q);
  }
}
