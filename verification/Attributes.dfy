/** Reading typed fields out of an event's attributes. */
module Attributes {
  import opened Ibc
  import opened Lists

  /** The keys of packet, connection and channel events; every other key is ignored. */
  datatype Key =
    | SrcPort | SrcChannel | DstPort | DstChannel | Sequence | TimeoutAt | TimeoutTime | Data | Ack
    | ConnectionKey | ClientKey | CounterpartyConnectionKey | CounterpartyClientKey
    | Unknown(name: string)

  datatype Attribute = Attribute(key: Key, text: string)

  /** A typed field: an identifier that may be absent, a number, a timeout height, or bytes. */
  datatype Value = Name(id: Option<Id>) | Number(n: nat) | Limit(height: TimeoutHeight) | Raw(text: string)

  datatype HeightText = HeightOf(height: Height) | ZeroHeight | BadHeight

  /** How the foreign parsers read a text. */
  datatype Parsers = Parsers(id: string -> Option<Id>, number: string -> Option<nat>, height: string -> HeightText)

  datatype Malformed = Identifier | SequenceText | TimeoutText | Aborted

  datatype Read<+T> = Fine(value: T) | Bad(reason: Malformed)

  /** A zero height means that there is no timeout height. */
  function ParseTimeoutHeight(parse: Parsers, text: string): Read<TimeoutHeight> {
    match parse.height(text)
    case HeightOf(h) => Fine(At(h))
    case ZeroHeight => Fine(Never)
    case BadHeight => Bad(TimeoutText)
  }

  function MandatoryId(parse: Parsers, text: string): Read<Value> {
    match parse.id(text) case Some(id) => Fine(Name(Some(id))) case None => Bad(Identifier)
  }

  function OptionalId(parse: Parsers, text: string): Read<Value> {
    Fine(Name(parse.id(text)))
  }

  /** The kind of value that a field holds. */
  predicate Holds(key: Key, v: Value) {
    match key
    case Sequence => v.Number?
    case TimeoutTime => v.Number?
    case TimeoutAt => v.Limit?
    case Data => v.Raw?
    case Ack => v.Raw?
    case _ => v.Name?
  }

  /** What a recognised attribute sets its field to. A timestamp that does not parse aborts. */
  function PacketValue(parse: Parsers, a: Attribute): (r: Read<Value>)
    ensures r.Fine? ==> Holds(a.key, r.value)
  {
    match a.key
    case Sequence => (match parse.number(a.text) case Some(n) => Fine(Number(n)) case None => Bad(SequenceText))
    case TimeoutAt =>
      (match ParseTimeoutHeight(parse, a.text) case Fine(h) => Fine(Limit(h)) case Bad(e) => Bad(e))
    case TimeoutTime => (match parse.number(a.text) case Some(n) => Fine(Number(n)) case None => Bad(Aborted))
    case Data => Fine(Raw(a.text))
    case Ack => Fine(Raw(a.text))
    case _ => MandatoryId(parse, a.text)
  }

  const PACKET_KEYS: set<Key> := {SrcPort, SrcChannel, DstPort, DstChannel, Sequence, TimeoutAt, TimeoutTime, Data, Ack}

  /** Connection identifiers that do not parse are dropped; client identifiers must parse. */
  function ConnectionValue(parse: Parsers, a: Attribute): (r: Read<Value>)
    ensures r.Fine? ==> r.value.Name?
  {
    if a.key == ConnectionKey || a.key == CounterpartyConnectionKey then OptionalId(parse, a.text)
    else MandatoryId(parse, a.text)
  }

  const CONNECTION_KEYS: set<Key> := {ConnectionKey, ClientKey, CounterpartyConnectionKey, CounterpartyClientKey}

  // ---------- the records that are filled ----------

  datatype PacketFields = PacketFields(
    srcPort: Option<Id>, srcChannel: Option<Id>, dstPort: Option<Id>, dstChannel: Option<Id>,
    sequence: nat, timeoutHeight: TimeoutHeight, timeoutTime: nat, data: string, ack: string)
  {
    function Get(key: Key): Value {
      match key
      case SrcPort => Name(srcPort)
      case SrcChannel => Name(srcChannel)
      case DstPort => Name(dstPort)
      case DstChannel => Name(dstChannel)
      case Sequence => Number(sequence)
      case TimeoutAt => Limit(timeoutHeight)
      case TimeoutTime => Number(timeoutTime)
      case Data => Raw(data)
      case Ack => Raw(ack)
      case _ => Raw("")
    }

    /** Assigns one field and leaves the others alone. */
    function With(key: Key, v: Value): (r: PacketFields)
      requires key in PACKET_KEYS && Holds(key, v)
      ensures forall k :: k in PACKET_KEYS ==> r.Get(k) == if k == key then v else Get(k)
    {
      match key
      case SrcPort => this.(srcPort := v.id)
      case SrcChannel => this.(srcChannel := v.id)
      case DstPort => this.(dstPort := v.id)
      case DstChannel => this.(dstChannel := v.id)
      case Sequence => this.(sequence := v.n)
      case TimeoutAt => this.(timeoutHeight := v.height)
      case TimeoutTime => this.(timeoutTime := v.n)
      case Data => this.(data := v.text)
      case Ack => this.(ack := v.text)
    }
  }

  datatype ConnectionFields = ConnectionFields(
    connection: Option<Id>, client: Option<Id>, counterpartyConnection: Option<Id>, counterpartyClient: Option<Id>)
  {
    function Get(key: Key): Value {
      match key
      case ConnectionKey => Name(connection)
      case ClientKey => Name(client)
      case CounterpartyConnectionKey => Name(counterpartyConnection)
      case CounterpartyClientKey => Name(counterpartyClient)
      case _ => Raw("")
    }

    function With(key: Key, v: Value): (r: ConnectionFields)
      requires key in CONNECTION_KEYS && Holds(key, v)
      ensures forall k :: k in CONNECTION_KEYS ==> r.Get(k) == if k == key then v else Get(k)
    {
      match key
      case ConnectionKey => this.(connection := v.id)
      case ClientKey => this.(client := v.id)
      case CounterpartyConnectionKey => this.(counterpartyConnection := v.id)
      case CounterpartyClientKey => this.(counterpartyClient := v.id)
    }
  }

  // ---------- last occurrence ----------

  /** What the attributes say about one key: the parse of its last occurrence, or the default. */
  ghost function Lookup(attributes: seq<Attribute>, key: Key, value: Attribute -> Read<Value>, default: Value): Value {
    if attributes == [] then default
    else
      var last := Last(attributes);
      if last.key == key && value(last).Fine? then value(last).value else Lookup(Front(attributes), key, value, default)
  }

  ghost predicate AllParse(attributes: seq<Attribute>, keys: set<Key>, value: Attribute -> Read<Value>) {
    forall i :: 0 <= i < |attributes| && attributes[i].key in keys ==> value(attributes[i]).Fine?
  }

  /** `reason` belongs to the first recognised attribute that does not parse. */
  ghost predicate FirstMalformed(attributes: seq<Attribute>, keys: set<Key>, value: Attribute -> Read<Value>,
                                 reason: Malformed) {
    exists i :: 0 <= i < |attributes| && attributes[i].key in keys && value(attributes[i]) == Bad(reason)
             && AllParse(attributes[..i], keys, value)
  }

  ghost function PacketReader(parse: Parsers): Attribute -> Read<Value> {
    a => PacketValue(parse, a)
  }

  ghost function ConnectionReader(parse: Parsers): Attribute -> Read<Value> {
    a => ConnectionValue(parse, a)
  }

  lemma LookupStep(attributes: seq<Attribute>, i: nat, key: Key, value: Attribute -> Read<Value>, default: Value)
    requires i < |attributes|
    ensures Lookup(attributes[..i + 1], key, value, default)
         == if attributes[i].key == key && value(attributes[i]).Fine? then value(attributes[i]).value
            else Lookup(attributes[..i], key, value, default)
  {
    assert Front(attributes[..i + 1]) == attributes[..i];
  }

  lemma AllParseStep(attributes: seq<Attribute>, i: nat, keys: set<Key>, value: Attribute -> Read<Value>)
    requires i < |attributes| && AllParse(attributes[..i], keys, value)
    ensures AllParse(attributes[..i + 1], keys, value) <==> (attributes[i].key in keys ==> value(attributes[i]).Fine?)
    ensures AllParse(attributes, keys, value) ==> AllParse(attributes[..i + 1], keys, value)
    ensures attributes[i].key in keys && value(attributes[i]).Bad? ==>
                  FirstMalformed(attributes, keys, value, value(attributes[i]).reason)
  {
  }

  ghost predicate PacketHolds(parse: Parsers, fields: PacketFields, attributes: seq<Attribute>, default: PacketFields) {
    forall k :: k in PACKET_KEYS ==> fields.Get(k) == Lookup(attributes, k, PacketReader(parse), default.Get(k))
  }

  lemma PacketHoldsStep(parse: Parsers, fields: PacketFields, attributes: seq<Attribute>, i: nat, default: PacketFields)
    requires i < |attributes| && PacketHolds(parse, fields, attributes[..i], default)
    ensures attributes[i].key !in PACKET_KEYS ==> PacketHolds(parse, fields, attributes[..i + 1], default)
    ensures attributes[i].key in PACKET_KEYS && PacketValue(parse, attributes[i]).Fine? ==>
              PacketHolds(parse, fields.With(attributes[i].key, PacketValue(parse, attributes[i]).value),
                          attributes[..i + 1], default)
  {
    forall k | k in PACKET_KEYS
      ensures Lookup(attributes[..i + 1], k, PacketReader(parse), default.Get(k))
           == if attributes[i].key == k && PacketValue(parse, attributes[i]).Fine?
             then PacketValue(parse, attributes[i]).value
             else fields.Get(k)
    {
      LookupStep(attributes, i, k, PacketReader(parse), default.Get(k));
    }
  }

  /** Reads packet attributes; the acknowledgement is the last field. */
  method ExtractPacket(parse: Parsers, attributes: seq<Attribute>,
                       default: PacketFields) returns (r: Read<PacketFields>)
    ensures r.Fine? <==> AllParse(attributes, PACKET_KEYS, PacketReader(parse))
    ensures r.Fine? ==> PacketHolds(parse, r.value, attributes, default)
    ensures r.Bad? ==> FirstMalformed(attributes, PACKET_KEYS, PacketReader(parse), r.reason)
    ensures ReadsPacket(parse, attributes, default, r)
  {
    var packet := default;
    for i := 0 to |attributes|
      invariant AllParse(attributes[..i], PACKET_KEYS, PacketReader(parse))
      invariant PacketHolds(parse, packet, attributes[..i], default)
    {
      var key := attributes[i].key;
      PacketHoldsStep(parse, packet, attributes, i, default);
      AllParseStep(attributes, i, PACKET_KEYS, PacketReader(parse));
      if key in PACKET_KEYS {
        var v := PacketValue(parse, attributes[i]);
        assert PacketReader(parse)(attributes[i]) == v;
        if v.Bad? {
          PacketMeaning(parse, attributes, default, Bad(v.reason));
          return Bad(v.reason);
        }
        packet := packet.With(key, v.value);
      }
    }
    assert attributes[..|attributes|] == attributes;
    PacketMeaning(parse, attributes, default, Fine(packet));
    return Fine(packet);
  }

  // ---------- the fields, over the parsers ----------

  /** The text of the last attribute with a key. */
  ghost function LastText(attributes: seq<Attribute>, key: Key): Option<string> {
    if attributes == [] then None
    else if Last(attributes).key == key then Some(Last(attributes).text)
    else LastText(Front(attributes), key)
  }

  ghost predicate IsLast(attributes: seq<Attribute>, key: Key, i: nat) {
    && i < |attributes| && attributes[i].key == key
    && forall j :: i < j < |attributes| ==> attributes[j].key != key
  }

  lemma {:induction false} LastTextMeaning(attributes: seq<Attribute>, key: Key)
    ensures LastText(attributes, key).None? <==> forall a :: a in attributes ==> a.key != key
    ensures forall text :: LastText(attributes, key) == Some(text) <==>
              exists i: nat :: IsLast(attributes, key, i) && attributes[i].text == text
  {
    if attributes != [] {
      var n := |attributes| - 1;
      assert attributes == Front(attributes) + [attributes[n]];
      if attributes[n].key == key {
        assert IsLast(attributes, key, n);
      } else {
        LastTextMeaning(Front(attributes), key);
        forall i: nat
          ensures IsLast(attributes, key, i) <==> IsLast(Front(attributes), key, i)
        {
        }
      }
    }
  }

  /** The field is what `means` makes of the text of the key's last attribute, or the default if the key
      does not occur. */
  ghost predicate ReadsAs<T(!new)>(attributes: seq<Attribute>, key: Key, field: T, default: T,
                                   means: (string, T) -> bool) {
    match LastText(attributes, key)
    case None => field == default
    case Some(text) => means(text, field)
  }

  ghost function NameOf(parse: Parsers): (string, Option<Id>) -> bool {
    (text: string, id: Option<Id>) => id.Some? && parse.id(text) == id
  }

  ghost function NameIfAny(parse: Parsers): (string, Option<Id>) -> bool {
    (text: string, id: Option<Id>) => parse.id(text) == id
  }

  ghost function NumberOf(parse: Parsers): (string, nat) -> bool {
    (text: string, n: nat) => parse.number(text) == Some(n)
  }

  ghost function LimitOf(parse: Parsers): (string, TimeoutHeight) -> bool {
    (text: string, limit: TimeoutHeight) =>
      if limit.At? then parse.height(text) == HeightOf(limit.height) else parse.height(text) == ZeroHeight
  }

  ghost predicate Verbatim(text: string, bytes: string) {
    bytes == text
  }

  /** Every packet field, over the text of its own key. */
  ghost predicate PacketReads(parse: Parsers, attributes: seq<Attribute>, default: PacketFields, r: PacketFields) {
    NamesRead(parse, attributes, default, r) && LimitsRead(parse, attributes, default, r)
  }

  ghost predicate NamesRead(parse: Parsers, attributes: seq<Attribute>, default: PacketFields, r: PacketFields) {
    && ReadsAs(attributes, SrcPort, r.srcPort, default.srcPort, NameOf(parse))
    && ReadsAs(attributes, SrcChannel, r.srcChannel, default.srcChannel, NameOf(parse))
    && ReadsAs(attributes, DstPort, r.dstPort, default.dstPort, NameOf(parse))
    && ReadsAs(attributes, DstChannel, r.dstChannel, default.dstChannel, NameOf(parse))
  }

  ghost predicate LimitsRead(parse: Parsers, attributes: seq<Attribute>, default: PacketFields, r: PacketFields) {
    && ReadsAs(attributes, Sequence, r.sequence, default.sequence, NumberOf(parse))
    && ReadsAs(attributes, TimeoutAt, r.timeoutHeight, default.timeoutHeight, LimitOf(parse))
    && ReadsAs(attributes, TimeoutTime, r.timeoutTime, default.timeoutTime, NumberOf(parse))
    && ReadsAs(attributes, Data, r.data, default.data, Verbatim)
    && ReadsAs(attributes, Ack, r.ack, default.ack, Verbatim)
  }

  /** Why the text of a packet attribute cannot be read, if it cannot. */
  ghost predicate Unreadable(parse: Parsers, a: Attribute, reason: Malformed) {
    match reason
    case Identifier => a.key in {SrcPort, SrcChannel, DstPort, DstChannel} && parse.id(a.text).None?
    case SequenceText => a.key == Sequence && parse.number(a.text).None?
    case TimeoutText => a.key == TimeoutAt && parse.height(a.text).BadHeight?
    case Aborted => a.key == TimeoutTime && parse.number(a.text).None?
  }

  /** Attribute `i` is the first one that cannot be read. */
  ghost predicate StopsReading(parse: Parsers, attributes: seq<Attribute>, i: nat, reason: Malformed) {
    && i < |attributes| && Unreadable(parse, attributes[i], reason)
    && forall j, other :: 0 <= j < i ==> !Unreadable(parse, attributes[j], other)
  }

  lemma UnreadableMeaning(parse: Parsers, a: Attribute, reason: Malformed)
    ensures Unreadable(parse, a, reason) <==> a.key in PACKET_KEYS && PacketValue(parse, a) == Bad(reason)
  {
  }

  /** The value that is looked up is that of the last attribute of the key. */
  lemma {:induction false} LookupIsLast(attributes: seq<Attribute>, key: Key, value: Attribute -> Read<Value>,
                                        default: Value)
    requires forall a :: a in attributes && a.key == key ==> value(a).Fine?
    ensures match LastText(attributes, key)
            case None => Lookup(attributes, key, value, default) == default
            case Some(text) => value(Attribute(key, text)) == Fine(Lookup(attributes, key, value, default))
  {
    if attributes != [] {
      assert attributes == Front(attributes) + [Last(attributes)];
      if Last(attributes).key == key {
        assert Last(attributes) == Attribute(key, Last(attributes).text) && Last(attributes) in attributes;
      } else {
        LookupIsLast(Front(attributes), key, value, default);
      }
    }
  }

  lemma PacketLookup(parse: Parsers, attributes: seq<Attribute>, default: PacketFields, r: PacketFields, key: Key)
    requires AllParse(attributes, PACKET_KEYS, PacketReader(parse)) && PacketHolds(parse, r, attributes, default)
    requires key in PACKET_KEYS
    ensures match LastText(attributes, key)
            case None => r.Get(key) == default.Get(key)
            case Some(text) => PacketValue(parse, Attribute(key, text)) == Fine(r.Get(key))
  {
    LookupIsLast(attributes, key, PacketReader(parse), default.Get(key));
  }

  lemma NameLookups(parse: Parsers, attributes: seq<Attribute>, default: PacketFields, r: PacketFields)
    requires AllParse(attributes, PACKET_KEYS, PacketReader(parse)) && PacketHolds(parse, r, attributes, default)
    ensures NamesRead(parse, attributes, default, r)
  {
    PacketLookup(parse, attributes, default, r, SrcPort);
    PacketLookup(parse, attributes, default, r, SrcChannel);
    PacketLookup(parse, attributes, default, r, DstPort);
    PacketLookup(parse, attributes, default, r, DstChannel);
  }

  lemma PacketLookups(parse: Parsers, attributes: seq<Attribute>, default: PacketFields, r: PacketFields)
    requires AllParse(attributes, PACKET_KEYS, PacketReader(parse)) && PacketHolds(parse, r, attributes, default)
    ensures PacketReads(parse, attributes, default, r)
  {
    NameLookups(parse, attributes, default, r);
    LimitLookups(parse, attributes, default, r);
  }

  lemma LimitLookups(parse: Parsers, attributes: seq<Attribute>, default: PacketFields, r: PacketFields)
    requires AllParse(attributes, PACKET_KEYS, PacketReader(parse)) && PacketHolds(parse, r, attributes, default)
    ensures LimitsRead(parse, attributes, default, r)
  {
    PacketLookup(parse, attributes, default, r, Sequence);
    PacketLookup(parse, attributes, default, r, TimeoutAt);
    PacketLookup(parse, attributes, default, r, TimeoutTime);
    PacketLookup(parse, attributes, default, r, Data);
    PacketLookup(parse, attributes, default, r, Ack);
  }

  /** What reading packet attributes gives: every field as its key's last attribute says, or the reason of
      the first attribute that cannot be read. */
  ghost predicate ReadsPacket(parse: Parsers, attributes: seq<Attribute>, default: PacketFields,
                              r: Read<PacketFields>) {
    && (r.Fine? ==>
          && PacketReads(parse, attributes, default, r.value)
          && forall i, reason :: 0 <= i < |attributes| ==> !Unreadable(parse, attributes[i], reason))
    && (r.Bad? ==> exists i :: StopsReading(parse, attributes, i, r.reason))
  }

  lemma PacketMeaning(parse: Parsers, attributes: seq<Attribute>, default: PacketFields, r: Read<PacketFields>)
    requires r.Fine? <==> AllParse(attributes, PACKET_KEYS, PacketReader(parse))
    requires r.Fine? ==> PacketHolds(parse, r.value, attributes, default)
    requires r.Bad? ==> FirstMalformed(attributes, PACKET_KEYS, PacketReader(parse), r.reason)
    ensures ReadsPacket(parse, attributes, default, r)
  {
    forall a, reason
      ensures Unreadable(parse, a, reason) <==> a.key in PACKET_KEYS && PacketReader(parse)(a) == Bad(reason)
    {
      UnreadableMeaning(parse, a, reason);
    }
    if r.Fine? {
      PacketLookups(parse, attributes, default, r.value);
    } else {
      FirstUnreadable(parse, attributes, r.reason);
    }
  }

  lemma FirstUnreadable(parse: Parsers, attributes: seq<Attribute>, reason: Malformed)
    requires FirstMalformed(attributes, PACKET_KEYS, PacketReader(parse), reason)
    ensures exists i :: StopsReading(parse, attributes, i, reason)
  {
    var i :| 0 <= i < |attributes| && attributes[i].key in PACKET_KEYS
             && PacketReader(parse)(attributes[i]) == Bad(reason)
                && AllParse(attributes[..i], PACKET_KEYS, PacketReader(parse));
    UnreadableMeaning(parse, attributes[i], reason);
    forall j, other | 0 <= j < i
      ensures !Unreadable(parse, attributes[j], other)
    {
      assert attributes[..i][j] == attributes[j];
      UnreadableMeaning(parse, attributes[j], other);
    }
    assert StopsReading(parse, attributes, i, reason);
  }

  ghost predicate ConnectionHolds(parse: Parsers, fields: ConnectionFields, attributes: seq<Attribute>,
                                  default: ConnectionFields) {
    forall k :: k in CONNECTION_KEYS ==> fields.Get(k) == Lookup(attributes, k, ConnectionReader(parse), default.Get(k))
  }

  lemma ConnectionHoldsStep(parse: Parsers, fields: ConnectionFields, attributes: seq<Attribute>, i: nat,
                            default: ConnectionFields)
    requires i < |attributes| && ConnectionHolds(parse, fields, attributes[..i], default)
    ensures attributes[i].key !in CONNECTION_KEYS ==> ConnectionHolds(parse, fields, attributes[..i + 1], default)
    ensures attributes[i].key in CONNECTION_KEYS && ConnectionValue(parse, attributes[i]).Fine? ==>
              ConnectionHolds(parse, fields.With(attributes[i].key, ConnectionValue(parse, attributes[i]).value),
                attributes[..i + 1], default)
  {
    forall k | k in CONNECTION_KEYS
      ensures Lookup(attributes[..i + 1], k, ConnectionReader(parse), default.Get(k))
           == if attributes[i].key == k && ConnectionValue(parse, attributes[i]).Fine?
             then ConnectionValue(parse, attributes[i]).value
             else fields.Get(k)
    {
      LookupStep(attributes, i, k, ConnectionReader(parse), default.Get(k));
    }
  }

  method ExtractConnection(parse: Parsers, attributes: seq<Attribute>,
                           default: ConnectionFields) returns (r: Read<ConnectionFields>)
    ensures r.Fine? <==> AllParse(attributes, CONNECTION_KEYS, ConnectionReader(parse))
    ensures r.Fine? ==> ConnectionHolds(parse, r.value, attributes, default)
    ensures r.Bad? ==> FirstMalformed(attributes, CONNECTION_KEYS, ConnectionReader(parse), r.reason)
    ensures ReadsConnection(parse, attributes, default, r)
  {
    var fields := default;
    for i := 0 to |attributes|
      invariant AllParse(attributes[..i], CONNECTION_KEYS, ConnectionReader(parse))
      invariant ConnectionHolds(parse, fields, attributes[..i], default)
    {
      var key := attributes[i].key;
      ConnectionHoldsStep(parse, fields, attributes, i, default);
      AllParseStep(attributes, i, CONNECTION_KEYS, ConnectionReader(parse));
      if key in CONNECTION_KEYS {
        var v := ConnectionValue(parse, attributes[i]);
        assert ConnectionReader(parse)(attributes[i]) == v;
        if v.Bad? {
          ConnectionMeaning(parse, attributes, default, Bad(v.reason));
          return Bad(v.reason);
        }
        fields := fields.With(key, v.value);
      }
    }
    assert attributes[..|attributes|] == attributes;
    ConnectionMeaning(parse, attributes, default, Fine(fields));
    return Fine(fields);
  }

  ghost predicate ConnectionReads(parse: Parsers, attributes: seq<Attribute>, default: ConnectionFields,
                                  r: ConnectionFields) {
    && ReadsAs(attributes, ConnectionKey, r.connection, default.connection, NameIfAny(parse))
    && ReadsAs(attributes, ClientKey, r.client, default.client, NameOf(parse))
    && ReadsAs(attributes, CounterpartyConnectionKey, r.counterpartyConnection, default.counterpartyConnection,
               NameIfAny(parse))
    && ReadsAs(attributes, CounterpartyClientKey, r.counterpartyClient, default.counterpartyClient, NameOf(parse))
  }

  /** Reading fails exactly when a client identifier cannot be read; otherwise every field is as its key's
      last attribute says, and a connection identifier that cannot be read leaves its field empty. */
  ghost predicate ReadsConnection(parse: Parsers, attributes: seq<Attribute>, default: ConnectionFields,
                                  r: Read<ConnectionFields>) {
    && (r.Bad? <==>
          exists a :: a in attributes && a.key in {ClientKey, CounterpartyClientKey} && parse.id(a.text).None?)
    && (r.Bad? ==> r.reason == Identifier)
    && (r.Fine? ==> ConnectionReads(parse, attributes, default, r.value))
  }

  lemma ConnectionMeaning(parse: Parsers, attributes: seq<Attribute>, default: ConnectionFields,
                          r: Read<ConnectionFields>)
    requires r.Fine? <==> AllParse(attributes, CONNECTION_KEYS, ConnectionReader(parse))
    requires r.Fine? ==> ConnectionHolds(parse, r.value, attributes, default)
    requires r.Bad? ==> FirstMalformed(attributes, CONNECTION_KEYS, ConnectionReader(parse), r.reason)
    ensures ReadsConnection(parse, attributes, default, r)
  {
    if r.Fine? {
      ConnectionLookup(parse, attributes, default, r.value, ConnectionKey);
      ConnectionLookup(parse, attributes, default, r.value, ClientKey);
      ConnectionLookup(parse, attributes, default, r.value, CounterpartyConnectionKey);
      ConnectionLookup(parse, attributes, default, r.value, CounterpartyClientKey);
      forall a | a in attributes && a.key in {ClientKey, CounterpartyClientKey}
        ensures parse.id(a.text).Some?
      {
        assert ConnectionReader(parse)(a).Fine?;
      }
    } else {
      var i :| 0 <= i < |attributes| && attributes[i].key in CONNECTION_KEYS
               && ConnectionReader(parse)(attributes[i]) == Bad(r.reason);
      assert attributes[i] in attributes;
    }
  }

  lemma ConnectionLookup(parse: Parsers, attributes: seq<Attribute>, default: ConnectionFields, r: ConnectionFields,
                         key: Key)
    requires AllParse(attributes, CONNECTION_KEYS, ConnectionReader(parse))
             && ConnectionHolds(parse, r, attributes, default)
    requires key in CONNECTION_KEYS
    ensures match LastText(attributes, key)
            case None => r.Get(key) == default.Get(key)
            case Some(text) => ConnectionValue(parse, Attribute(key, text)) == Fine(r.Get(key))
  {
    LookupIsLast(attributes, key, ConnectionReader(parse), default.Get(key));
  }

  // ---------- order ----------

  ghost predicate DistinctKeys(attributes: seq<Attribute>) {
    forall i, j :: 0 <= i < j < |attributes| ==> attributes[i].key != attributes[j].key
  }

  /** With distinct keys, a key is looked up wherever it stands. */
  lemma {:induction false} LookupAnywhere(attributes: seq<Attribute>, a: Attribute,
                                          value: Attribute -> Read<Value>, default: Value)
    requires DistinctKeys(attributes) && a in attributes && value(a).Fine?
    ensures Lookup(attributes, a.key, value, default) == value(a).value
  {
    assert attributes == Front(attributes) + [Last(attributes)];
    if a != Last(attributes) {
      LookupAnywhere(Front(attributes), a, value, default);
      var i :| 0 <= i < |Front(attributes)| && Front(attributes)[i] == a;
      assert attributes[i].key != attributes[|attributes| - 1].key;
    }
  }

  lemma {:induction false} LookupAbsent(attributes: seq<Attribute>, key: Key, value: Attribute -> Read<Value>,
                                        default: Value)
    requires forall a :: a in attributes ==> a.key != key
    ensures Lookup(attributes, key, value, default) == default
  {
    if attributes != [] {
      LookupAbsent(Front(attributes), key, value, default);
    }
  }

  /** Two orders of the same attributes give the same fields, and parse or fail together. */
  lemma OrderDoesNotMatter(a: seq<Attribute>, b: seq<Attribute>, keys: set<Key>, value: Attribute -> Read<Value>,
                           default: Value)
    requires DistinctKeys(a) && DistinctKeys(b)
    requires forall x :: x in a <==> x in b
    ensures AllParse(a, keys, value) <==> AllParse(b, keys, value)
    ensures AllParse(a, keys, value) ==>
                  forall k :: k in keys ==> Lookup(a, k, value, default) == Lookup(b, k, value, default)
  {
    ParseTogether(a, b, keys, value);
    ParseTogether(b, a, keys, value);
    if AllParse(a, keys, value) {
      forall k | k in keys
        ensures Lookup(a, k, value, default) == Lookup(b, k, value, default)
      {
        if x :| x in a && x.key == k {
          LookupAnywhere(a, x, value, default);
          LookupAnywhere(b, x, value, default);
        } else {
          LookupAbsent(a, k, value, default);
          LookupAbsent(b, k, value, default);
        }
      }
    }
  }

  lemma ParseTogether(a: seq<Attribute>, b: seq<Attribute>, keys: set<Key>, value: Attribute -> Read<Value>)
    requires forall x :: x in b ==> x in a
    ensures AllParse(a, keys, value) ==> AllParse(b, keys, value)
  {
    forall i | AllParse(a, keys, value) && 0 <= i < |b| && b[i].key in keys
      ensures value(b[i]).Fine?
    {
      assert b[i] in a;
    }
  }
}
