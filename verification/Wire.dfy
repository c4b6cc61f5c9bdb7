/** The byte layout of a transaction, following the Protocol Buffers encoding: Base 128 varints and
    length-delimited fields. A reader for the same layout shows that nothing is lost or ambiguous. */
module Wire {
  import opened Ibc
  import opened Lists

  /** The wrapped form in which every message travels. */
  datatype Any = Any(typeUrl: Bytes, value: Bytes)

  function Varint(n: nat): (r: Bytes)
    ensures |r| > 0
  {
    if n < 128 then [n as byte]
    else [(n % 128 + 128) as byte] + Varint(n / 128)
  }

  /** Field number `tag` of a length-delimited kind, for the one-byte tags used here. */
  function Field(tag: byte, payload: Bytes): Bytes {
    [tag] + Varint(|payload|) + payload
  }

  /** Singular fields are left out when they hold their default value. */
  function OptionalField(tag: byte, payload: Bytes): Bytes {
    if payload == [] then [] else Field(tag, payload)
  }

  const FIELD_1: byte := 0x0A
  const FIELD_2: byte := 0x12
  const FIELD_3: byte := 0x1A

  function EncodeAny(a: Any): Bytes {
    OptionalField(FIELD_1, a.typeUrl) + OptionalField(FIELD_2, a.value)
  }

  function EncodeMessages(messages: seq<Any>): Bytes {
    if messages == [] then [] else EncodeMessages(Front(messages)) + Field(FIELD_1, EncodeAny(Last(messages)))
  }

  /** The characters of the fixed memo. */
  const MEMO: Bytes := [0x69, 0x62, 0x63]

  /** A body with no timeout height and no extension options. */
  function EncodeTxBody(messages: seq<Any>): Bytes {
    EncodeMessages(messages) + OptionalField(FIELD_2, MEMO)
  }

  function EncodeTxRaw(body: Bytes, authInfo: Bytes, signature: Bytes): Bytes {
    OptionalField(FIELD_1, body) + OptionalField(FIELD_2, authInfo) + Field(FIELD_3, signature)
  }

  // ---------- reading it back ----------

  function ReadVarint(bytes: Bytes): Option<(nat, Bytes)> {
    if bytes == [] then None
    else if bytes[0] as nat < 128 then Some((bytes[0] as nat, bytes[1..]))
    else
      match ReadVarint(bytes[1..])
      case None => None
      case Some((high, rest)) => Some((bytes[0] as nat - 128 + 128 * high, rest))
  }

  /** The tag, the payload and the remaining bytes of one length-delimited field. */
  function ReadField(bytes: Bytes): (r: Option<(byte, Bytes, Bytes)>)
    ensures r.Some? ==> |r.value.2| < |bytes|
  {
    if bytes == [] then None
    else
      ReadVarintShortens(bytes[1..]);
      match ReadVarint(bytes[1..])
      case None => None
      case Some((length, rest)) => if length > |rest| then None else Some((bytes[0], rest[..length], rest[length..]))
  }

  function ReadFields(bytes: Bytes): Option<seq<(byte, Bytes)>>
    decreases |bytes|
  {
    if bytes == [] then Some([])
    else
      match ReadField(bytes)
      case None => None
      case Some((tag, payload, rest)) =>
        match ReadFields(rest)
        case None => None
        case Some(fields) => Some([(tag, payload)] + fields)
  }

  lemma {:induction false} ReadVarintShortens(bytes: Bytes)
    ensures ReadVarint(bytes).Some? ==> |ReadVarint(bytes).value.1| < |bytes|
  {
    if bytes != [] && bytes[0] as nat >= 128 {
      ReadVarintShortens(bytes[1..]);
    }
  }

  lemma {:induction false} VarintRoundTrip(n: nat, rest: Bytes)
    ensures ReadVarint(Varint(n) + rest) == Some((n, rest))
  {
    var bytes := Varint(n) + rest;
    if n < 128 {
      assert bytes[0] as nat == n && bytes[1..] == rest;
    } else {
      VarintRoundTrip(n / 128, rest);
      assert bytes[1..] == Varint(n / 128) + rest;
      assert bytes[0] as nat == n % 128 + 128;
    }
  }

  lemma FieldRoundTrip(tag: byte, payload: Bytes, rest: Bytes)
    ensures ReadField(Field(tag, payload) + rest) == Some((tag, payload, rest))
  {
    var bytes := Field(tag, payload) + rest;
    assert bytes[1..] == Varint(|payload|) + (payload + rest);
    VarintRoundTrip(|payload|, payload + rest);
    assert (payload + rest)[..|payload|] == payload && (payload + rest)[|payload|..] == rest;
  }

  function Fields(fields: seq<(byte, Bytes)>): Bytes {
    if fields == [] then [] else Field(fields[0].0, fields[0].1) + Fields(fields[1..])
  }

  lemma {:induction false} FieldsRoundTrip(fields: seq<(byte, Bytes)>)
    ensures ReadFields(Fields(fields)) == Some(fields)
  {
    if fields != [] {
      FieldRoundTrip(fields[0].0, fields[0].1, Fields(fields[1..]));
      FieldsRoundTrip(fields[1..]);
      assert [(fields[0].0, fields[0].1)] + fields[1..] == fields;
    }
  }

  lemma Associative(a: Bytes, b: Bytes, c: Bytes)
    ensures (a + b) + c == a + (b + c)
  {
  }

  lemma {:induction false} FieldsAppend(a: seq<(byte, Bytes)>, b: seq<(byte, Bytes)>)
    ensures Fields(a + b) == Fields(a) + Fields(b)
  {
    if a == [] {
      assert a + b == b;
    } else {
      FieldsAppend(a[1..], b);
      assert (a + b)[0] == a[0] && (a + b)[1..] == a[1..] + b;
      Associative(Field(a[0].0, a[0].1), Fields(a[1..]), Fields(b));
    }
  }

  function OptionalEntry(tag: byte, payload: Bytes): seq<(byte, Bytes)> {
    if payload == [] then [] else [(tag, payload)]
  }

  function MessageEntries(messages: seq<Any>): (r: seq<(byte, Bytes)>)
    ensures |r| == |messages|
    ensures forall i :: 0 <= i < |r| ==> r[i] == (FIELD_1, EncodeAny(messages[i]))
  {
    seq(|messages|, i requires 0 <= i < |messages| => (FIELD_1, EncodeAny(messages[i])))
  }

  lemma OneField(tag: byte, payload: Bytes)
    ensures Fields([(tag, payload)]) == Field(tag, payload)
  {
  }

  lemma {:induction false} MessagesAsFields(messages: seq<Any>)
    ensures EncodeMessages(messages) == Fields(MessageEntries(messages))
  {
    if messages != [] {
      MessagesAsFields(Front(messages));
      var last := [(FIELD_1, EncodeAny(Last(messages)))];
      assert MessageEntries(messages) == MessageEntries(Front(messages)) + last;
      FieldsAppend(MessageEntries(Front(messages)), last);
      OneField(FIELD_1, EncodeAny(Last(messages)));
    }
  }

  /** A reader of the transaction finds the wrapped type and value of every message, then the memo;
      the messages are found in order and none is missing. */
  lemma BodyRoundTrip(messages: seq<Any>)
    ensures ReadFields(EncodeTxBody(messages)) == Some(MessageEntries(messages) + [(FIELD_2, MEMO)])
    ensures forall a: Any :: ReadFields(EncodeAny(a))
              == Some(OptionalEntry(FIELD_1, a.typeUrl) + OptionalEntry(FIELD_2, a.value))
  {
    MessagesAsFields(messages);
    FieldsAppend(MessageEntries(messages), [(FIELD_2, MEMO)]);
    OneField(FIELD_2, MEMO);
    FieldsRoundTrip(MessageEntries(messages) + [(FIELD_2, MEMO)]);
    forall a: Any
      ensures ReadFields(EncodeAny(a)) == Some(OptionalEntry(FIELD_1, a.typeUrl) + OptionalEntry(FIELD_2, a.value))
    {
      AnyRoundTrip(a);
    }
  }

  lemma AnyRoundTrip(a: Any)
    ensures ReadFields(EncodeAny(a)) == Some(OptionalEntry(FIELD_1, a.typeUrl) + OptionalEntry(FIELD_2, a.value))
  {
    var url, value := OptionalEntry(FIELD_1, a.typeUrl), OptionalEntry(FIELD_2, a.value);
    OneField(FIELD_1, a.typeUrl);
    OneField(FIELD_2, a.value);
    FieldsAppend(url, value);
    FieldsRoundTrip(url + value);
  }

  lemma TxRawRoundTrip(body: Bytes, authInfo: Bytes, signature: Bytes)
    ensures ReadFields(EncodeTxRaw(body, authInfo, signature))
         == Some(OptionalEntry(FIELD_1, body) + OptionalEntry(FIELD_2, authInfo) + [(FIELD_3, signature)])
  {
    var a, b, c := OptionalEntry(FIELD_1, body), OptionalEntry(FIELD_2, authInfo), [(FIELD_3, signature)];
    OneField(FIELD_1, body);
    OneField(FIELD_2, authInfo);
    OneField(FIELD_3, signature);
    FieldsAppend(a, b);
    FieldsAppend(a + b, c);
    FieldsRoundTrip(a + b + c);
  }

  /** Different message lists give different bodies. */
  lemma BodyDeterminesMessages(a: seq<Any>, b: seq<Any>)
    requires EncodeTxBody(a) == EncodeTxBody(b)
    ensures a == b
  {
    BodyRoundTrip(a);
    BodyRoundTrip(b);
    var ea, eb := MessageEntries(a), MessageEntries(b);
    assert ea + [(FIELD_2, MEMO)] == eb + [(FIELD_2, MEMO)];
    assert |ea| == |eb|;
    forall i | 0 <= i < |a|
      ensures a[i] == b[i]
    {
      assert (ea + [(FIELD_2, MEMO)])[i] == (eb + [(FIELD_2, MEMO)])[i];
      AnyDetermined(a[i], b[i]);
    }
  }

  lemma AnyDetermined(a: Any, b: Any)
    requires EncodeAny(a) == EncodeAny(b)
    ensures a == b
  {
    AnyRoundTrip(a);
    AnyRoundTrip(b);
    var fa := OptionalEntry(FIELD_1, a.typeUrl) + OptionalEntry(FIELD_2, a.value);
    var fb := OptionalEntry(FIELD_1, b.typeUrl) + OptionalEntry(FIELD_2, b.value);
    assert fa == fb;
    assert |fa| > 0 ==> fa[0] == fb[0];
    assert |fa| > 1 ==> fa[1] == fb[1];
  }
}
