/** The size estimate of a batch: an incremental count that has to agree with the bytes of the
    transaction that would carry the batch. */
module Weight {
  import opened Ibc
  import opened Lists
  import opened Wire

  const MAX_MESSAGES: nat := 30

  /** The account data that a signed transaction depends on. The signature is a function of the body;
      only its length matters here. */
  datatype Signer = Signer(authInfo: Bytes, sign: Bytes -> Bytes) {
    ghost predicate FixedLength() {
      forall a, b :: |sign(a)| == |sign(b)|
    }
  }

  function SignTx(signer: Signer, messages: seq<Any>): Bytes {
    var body := EncodeTxBody(messages);
    EncodeTxRaw(body, signer.authInfo, signer.sign(body))
  }

  /** The number of bytes of a varint, seven bits to the byte. */
  function LengthDelimiterLen(n: nat): (r: nat)
    ensures r > 0
  {
    if n < 128 then 1 else 1 + LengthDelimiterLen(n / 128)
  }

  function FieldLen(length: nat): nat {
    1 + LengthDelimiterLen(length) + length
  }

  function EncodedLen(a: Any): nat {
    (if |a.typeUrl| == 0 then 0 else FieldLen(|a.typeUrl|)) + if |a.value| == 0 then 0 else FieldLen(|a.value|)
  }

  function TxLen(envelopeLen: nat, bodyLen: nat): nat
    requires bodyLen != 0
  {
    envelopeLen + 1 + LengthDelimiterLen(bodyLen) + bodyLen
  }

  lemma {:induction false} VarintLength(n: nat)
    ensures |Varint(n)| == LengthDelimiterLen(n)
  {
    if n >= 128 {
      VarintLength(n / 128);
    }
  }

  lemma {:induction false} DelimiterMonotone(a: nat, b: nat)
    requires a <= b
    ensures LengthDelimiterLen(a) <= LengthDelimiterLen(b)
  {
    if a >= 128 {
      DelimiterMonotone(a / 128, b / 128);
    }
  }

  lemma FieldLength(tag: byte, payload: Bytes)
    ensures |Field(tag, payload)| == FieldLen(|payload|)
  {
    VarintLength(|payload|);
  }

  lemma EncodedLength(a: Any)
    ensures |EncodeAny(a)| == EncodedLen(a)
  {
    FieldLength(FIELD_1, a.typeUrl);
    FieldLength(FIELD_2, a.value);
  }

  lemma {:induction false} BodyGrows(messages: seq<Any>, n: nat)
    requires n <= |messages|
    ensures |EncodeTxBody(messages[..n])| <= |EncodeTxBody(messages)|
  {
    if n < |messages| {
      BodyGrows(Front(messages), n);
      assert Front(messages)[..n] == messages[..n];
    } else {
      assert messages[..n] == messages;
    }
  }

  lemma BodyStep(messages: seq<Any>, n: nat)
    requires n < |messages|
    ensures |EncodeTxBody(messages[..n + 1])| == |EncodeTxBody(messages[..n])| + FieldLen(EncodedLen(messages[n]))
  {
    assert Front(messages[..n + 1]) == messages[..n];
    FieldLength(FIELD_1, EncodeAny(messages[n]));
    EncodedLength(messages[n]);
  }

  /** The envelope is everything in a transaction but its body field. */
  ghost function EnvelopeLen(signer: Signer): nat {
    |OptionalField(FIELD_2, signer.authInfo)| + |Field(FIELD_3, signer.sign(EncodeTxBody([])))|
  }

  lemma SignedLength(signer: Signer, messages: seq<Any>)
    requires signer.FixedLength()
    ensures |EncodeTxBody(messages)| > 0
    ensures |SignTx(signer, messages)| == TxLen(EnvelopeLen(signer), |EncodeTxBody(messages)|)
  {
    var body := EncodeTxBody(messages);
    FieldLength(FIELD_1, body);
    FieldLength(FIELD_3, signer.sign(body));
    FieldLength(FIELD_3, signer.sign(EncodeTxBody([])));
  }

  /** What one more message adds to the body and to the signed transaction. */
  lemma EstimateStep(signer: Signer, messages: seq<Any>, i: nat)
    requires signer.FixedLength() && i < |messages|
    ensures var grown := |EncodeTxBody(messages[..i])| + FieldLen(EncodedLen(messages[i]));
            && |EncodeTxBody(messages[..i + 1])| == grown
            && |SignTx(signer, messages[..i + 1])| == TxLen(EnvelopeLen(signer), grown)
    ensures |SignTx(signer, messages[..i + 1])| <= |SignTx(signer, messages)|
  {
    BodyStep(messages, i);
    SignedLength(signer, messages[..i + 1]);
    SignedGrows(signer, messages, i + 1);
  }

  /** The length of everything but the body field, from the transaction without messages. Its body
      still holds the memo, so it is never empty. */
  method MeasureEnvelope(signer: Signer) returns (envelopeLen: nat, bodyBytesLen: nat)
    requires signer.FixedLength()
    ensures envelopeLen == EnvelopeLen(signer) && bodyBytesLen == |EncodeTxBody([])|
  {
    var totalLen := |SignTx(signer, [])|;
    bodyBytesLen := |EncodeTxBody([])|;
    SignedLength(signer, []);
    envelopeLen := totalLen - 1 - LengthDelimiterLen(bodyBytesLen) - bodyBytesLen;
  }

  /** The estimate is the exact length of the encoded body. A batch is accepted exactly when it has
      at most 30 messages and, unless it is empty, its signed transaction fits. */
  method EstimateWeight(signer: Signer, messages: seq<Any>, maxTxSize: nat) returns (r: Result<nat>)
    requires signer.FixedLength()
    ensures r == Estimate(signer, messages, maxTxSize)
  {
    var envelopeLen, bodyBytesLen := MeasureEnvelope(signer);
    var currentCount := 0;
    var currentLen := bodyBytesLen;
    assert messages[..0] == [];
    for i := 0 to |messages|
      invariant currentCount == i <= MAX_MESSAGES
      invariant currentLen == |EncodeTxBody(messages[..i])|
      invariant i > 0 ==> |SignTx(signer, messages[..i])| <= maxTxSize
    {
      var taggedLen := FieldLen(EncodedLen(messages[i]));
      EstimateStep(signer, messages, i);
      if currentCount >= MAX_MESSAGES || TxLen(envelopeLen, currentLen + taggedLen) > maxTxSize {
        RejectedMeaning(signer, messages, i, maxTxSize);
        return Err(TooManyMessages);
      }
      currentCount := currentCount + 1;
      currentLen := currentLen + taggedLen;
    }
    assert messages[..|messages|] == messages;
    assert Fits(signer, messages, maxTxSize);
    return Ok(currentLen);
  }

  /** The loop gives up on message `i` only for a list that does not fit. */
  lemma RejectedMeaning(signer: Signer, messages: seq<Any>, i: nat, maxTxSize: nat)
    requires signer.FixedLength() && i < |messages|
    requires i >= MAX_MESSAGES || |SignTx(signer, messages[..i + 1])| > maxTxSize
    ensures !Fits(signer, messages, maxTxSize)
  {
    SignedGrows(signer, messages, i + 1);
  }

  ghost predicate Fits(signer: Signer, messages: seq<Any>, maxTxSize: nat) {
    |messages| <= MAX_MESSAGES && (messages == [] || |SignTx(signer, messages)| <= maxTxSize)
  }

  /** What the estimate means, without the incremental count. */
  ghost function Estimate(signer: Signer, messages: seq<Any>, maxTxSize: nat): Result<nat> {
    if Fits(signer, messages, maxTxSize) then Ok(|EncodeTxBody(messages)|) else Err(TooManyMessages)
  }

  lemma SignedGrows(signer: Signer, messages: seq<Any>, n: nat)
    requires signer.FixedLength() && n <= |messages|
    ensures |SignTx(signer, messages[..n])| <= |SignTx(signer, messages)|
  {
    BodyGrows(messages, n);
    LongerBody(signer, messages[..n], messages);
  }

  lemma LongerBody(signer: Signer, a: seq<Any>, b: seq<Any>)
    requires signer.FixedLength() && |EncodeTxBody(a)| <= |EncodeTxBody(b)|
    ensures |SignTx(signer, a)| <= |SignTx(signer, b)|
  {
    SignedLength(signer, a);
    SignedLength(signer, b);
    DelimiterMonotone(|EncodeTxBody(a)|, |EncodeTxBody(b)|);
  }

  lemma {:induction false} BodyPrepended(first: Any, messages: seq<Any>)
    ensures |EncodeTxBody(messages)| <= |EncodeTxBody([first] + messages)|
  {
    if messages != [] {
      BodyPrepended(first, Front(messages));
      assert Front([first] + messages) == [first] + Front(messages) && Last([first] + messages) == Last(messages);
    }
  }

  /** What does not fit alone does not fit after another message and with more behind it. */
  lemma PartFits(signer: Signer, first: Any, messages: seq<Any>, n: nat, maxTxSize: nat)
    requires signer.FixedLength() && n <= |messages| && Fits(signer, [first] + messages, maxTxSize)
    ensures n < MAX_MESSAGES && Fits(signer, messages[..n], maxTxSize)
  {
    BodyPrepended(first, messages);
    LongerBody(signer, messages, [first] + messages);
    SignedGrows(signer, messages, n);
  }

  /** An accepted batch that is not empty weighs less than the limit it was measured against. */
  lemma AcceptedIsLight(signer: Signer, messages: seq<Any>, maxTxSize: nat)
    requires signer.FixedLength()
    requires messages != [] && Estimate(signer, messages, maxTxSize).Ok?
    ensures Estimate(signer, messages, maxTxSize).value < maxTxSize
  {
  }

  /** Every prefix of an accepted batch is accepted. */
  lemma AcceptedPrefix(signer: Signer, messages: seq<Any>, maxTxSize: nat, n: nat)
    requires signer.FixedLength() && n <= |messages|
    requires Estimate(signer, messages, maxTxSize).Ok?
    ensures Estimate(signer, messages[..n], maxTxSize).Ok?
  {
    SignedGrows(signer, messages, n);
  }
}
