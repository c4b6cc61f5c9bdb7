/** Translation of the source chain's events into messages for the sink, with the greatest proof
    height among them. */
module Events {
  import opened Ibc
  import opened Lists

  datatype Parsed = Parsed(messages: seq<Msg>, timeouts: seq<Msg>, proofHeight: Height)

  /** The proof height of an answer must be there and must not be zero. How a missing one is
      reported depends on the event. */
  function ProofHeight(height: Option<RawHeight>, missing: Error): Result<Height> {
    if height.None? then Err(missing) else NewHeight(height.value.number, height.value.height)
  }

  /** The client state that vouches for the other chain is mandatory in the first two steps of the
      connection handshake, and so is the consensus state it points to. */
  function ClientProof(source: ChainView, at: Height, client: Id): Result<Height> {
    var latest :- source.ClientHeight(at, client);
    if (client, latest) in source.consensus then Ok(latest) else Err(QueryFailed)
  }

  function ClientQuery(source: ChainView, at: Height, client: Id): Result<()> {
    if (at, client) in source.clients then Ok(()) else Err(QueryFailed)
  }

  function FirstOf(versions: seq<Id>): Result<Id> {
    if versions == [] then Err(MissingVersion) else Ok(versions[0])
  }

  function Present(id: Option<Id>, missing: Error): Result<Id> {
    if id.None? then Err(missing) else Ok(id.value)
  }

  function OpenInitConnectionMessage(source: ChainView, at: Height, id: Id, client: Id): Result<Msg> {
    var end :- source.ConnectionEndAt(at, id);
    var asked :- ClientQuery(source, at, client);
    var proof :- ProofHeight(source.connections[(at, id)].proofHeight, MissingProofHeight);
    var latest :- ClientProof(source, at, client);
    Ok(ConnOpenTry(end.counterpartyConnection, end.counterpartyClient, client, id, end.versions, end.delay, proof))
  }

  function OpenTryConnectionMessage(source: ChainView, at: Height, id: Id, client: Id): Result<Msg> {
    var end :- source.ConnectionEndAt(at, id);
    var asked :- ClientQuery(source, at, client);
    var proof :- ProofHeight(source.connections[(at, id)].proofHeight, MissingProofHeight);
    var latest :- ClientProof(source, at, client);
    var target :- Present(end.counterpartyConnection, MissingConnection);
    var version :- FirstOf(end.versions);
    Ok(ConnOpenAck(target, id, version, proof))
  }

  function OpenAckConnectionMessage(source: ChainView, at: Height, id: Id): Result<Msg> {
    var end :- source.ConnectionEndAt(at, id);
    var proof :- ProofHeight(source.connections[(at, id)].proofHeight, MissingProofHeight);
    var target :- Present(end.counterpartyConnection, MissingConnection);
    Ok(ConnOpenConfirm(target, proof))
  }

  /** The channel end and proof height of the handshake steps; a missing height aborts. */
  function ChannelProof(source: ChainView, at: Height, key: ChannelKey): Result<(ChannelEnd, Height)> {
    var end :- source.ChannelEndAt(at, key);
    var proof :- ProofHeight(source.channels[(at, key)].proofHeight, Panic);
    Ok((end, proof))
  }

  function OpenInitChannelMessage(source: ChainView, at: Height, port: Id, id: Id): Result<Msg> {
    var (end, proof) :- ChannelProof(source, at, ChannelKey(id, port));
    var expected := ChannelEnd(ChanTryOpen, end.ordering, port, Some(id), end.hops, end.version);
    Ok(ChanOpenTry(end.counterpartyChannel, end.counterpartyPort, expected, end.version, proof))
  }

  function OpenTryChannelMessage(source: ChainView, at: Height, port: Id, id: Id): Result<Msg> {
    var (end, proof) :- ChannelProof(source, at, ChannelKey(id, port));
    var target :- Present(end.counterpartyChannel, Panic);
    Ok(ChanOpenAck(end.counterpartyPort, target, id, end.version, proof))
  }

  function OpenAckChannelMessage(source: ChainView, at: Height, port: Id, id: Id): Result<Msg> {
    var (end, proof) :- ChannelProof(source, at, ChannelKey(id, port));
    var target :- Present(end.counterpartyChannel, Panic);
    Ok(ChanOpenConfirm(end.counterpartyPort, target, proof))
  }

  function CloseInitChannelMessage(source: ChainView, at: Height, port: Id, id: Id): Result<Msg> {
    var (end, proof) :- ChannelProof(source, at, ChannelKey(id, port));
    var target :- Present(end.counterpartyChannel, Panic);
    Ok(ChanCloseConfirm(end.counterpartyPort, target, proof))
  }

  /** The delay of the connection that a channel runs over. */
  function ChannelDelay(source: ChainView, at: Height, key: ChannelKey): Result<nat> {
    var end :- source.ChannelEndAt(at, key);
    if end.hops == [] then Err(MissingConnection)
    else
      var connection :- source.ConnectionEndAt(at, end.hops[0]);
      Ok(connection.delay)
  }

  /** A proof height recorded for one packet; an unknown packet makes the query fail. */
  function PacketProof(proofs: map<(Height, ChannelKey, nat), Option<RawHeight>>, at: Height, key: ChannelKey,
                       s: nat): Result<Height> {
    if (at, key, s) !in proofs then Err(QueryFailed) else ProofHeight(proofs[(at, key, s)], Panic)
  }

  /** A packet on a connection with a delay is left to the sorter. */
  function SendPacketMessage(source: ChainView, at: Height, packet: Packet): Result<Option<Msg>> {
    var delay :- ChannelDelay(source, at, packet.source);
    if delay != 0 then Ok(None)
    else
      var proof :- PacketProof(source.packetProofs, at, packet.source, packet.sequence);
      Ok(Some(RecvPacket(packet, proof)))
  }

  /** The acknowledging chain looks its own channel up under the packet's source identifiers. */
  function WriteAckMessage(source: ChainView, at: Height, packet: Packet, ack: Bytes): Result<Option<Msg>> {
    var delay :- ChannelDelay(source, at, packet.source);
    if delay != 0 then Ok(None)
    else
      var proof :- PacketProof(source.ackProofs, at, packet.source, packet.sequence);
      Ok(Some(Acknowledgement(packet, ack, proof)))
  }

  function Wrap(m: Result<Msg>): Result<Option<Msg>> {
    match m case Ok(v) => Ok(Some(v)) case Err(e) => Err(e)
  }

  /** At most one message per event; events without an identifier and all other kinds give none. */
  function Translate(source: ChainView, ev: EventAt): (r: Result<Option<Msg>>)
    ensures r.Ok? && r.value.Some? ==> !r.value.value.UpdateClient?
  {
    match ev.event
    case OpenInitConnection(id, client) =>
      if id.None? then Ok(None) else Wrap(OpenInitConnectionMessage(source, ev.height, id.value, client))
    case OpenTryConnection(id, client) =>
      if id.None? then Ok(None) else Wrap(OpenTryConnectionMessage(source, ev.height, id.value, client))
    case OpenAckConnection(id, _) =>
      if id.None? then Ok(None) else Wrap(OpenAckConnectionMessage(source, ev.height, id.value))
    case OpenInitChannel(port, id) =>
      if id.None? then Ok(None) else Wrap(OpenInitChannelMessage(source, ev.height, port, id.value))
    case OpenTryChannel(port, id) =>
      if id.None? then Ok(None) else Wrap(OpenTryChannelMessage(source, ev.height, port, id.value))
    case OpenAckChannel(port, id) =>
      if id.None? then Ok(None) else Wrap(OpenAckChannelMessage(source, ev.height, port, id.value))
    case CloseInitChannel(port, id) => Wrap(CloseInitChannelMessage(source, ev.height, port, id))
    case SendPacket(packet) => SendPacketMessage(source, ev.height, packet)
    case WriteAcknowledgement(packet, ack) => WriteAckMessage(source, ev.height, packet, ack)
    case OtherEvent(_) => Ok(None)
  }

  // ---------- packet events ----------

  /** The source answers that the channel's first connection has this delay. */
  ghost predicate DelayIs(source: ChainView, at: Height, key: ChannelKey, delay: nat) {
    exists end, connection :: DelayOf(source, at, key, delay, end, connection)
  }

  ghost predicate DelayOf(source: ChainView, at: Height, key: ChannelKey, delay: nat, end: ChannelEnd,
                          connection: ConnectionEnd) {
    && (at, key) in source.channels && source.channels[(at, key)].end == Some(end)
    && end.hops != [] && (at, end.hops[0]) in source.connections
    && source.connections[(at, end.hops[0])].end == Some(connection) && connection.delay == delay
  }

  ghost predicate ProofIs(proofs: map<(Height, ChannelKey, nat), Option<RawHeight>>, at: Height, key: ChannelKey,
                          s: nat, proof: Height) {
    (at, key, s) in proofs && proofs[(at, key, s)] == Some(proof)
  }

  lemma DelayKnown(source: ChainView, at: Height, key: ChannelKey, delay: nat)
    ensures ChannelDelay(source, at, key) == Ok(delay) <==> DelayIs(source, at, key, delay)
  {
    if ChannelDelay(source, at, key) == Ok(delay) {
      var end := source.channels[(at, key)].end.value;
      assert DelayOf(source, at, key, delay, end, source.connections[(at, end.hops[0])].end.value);
    }
  }

  lemma ProofKnown(proofs: map<(Height, ChannelKey, nat), Option<RawHeight>>, at: Height, key: ChannelKey, s: nat,
                   proof: Height)
    ensures PacketProof(proofs, at, key, s) == Ok(proof) <==> ProofIs(proofs, at, key, s, proof)
  {
  }

  /** A sent packet is left to the sorter exactly when its connection has a delay. It is relayed exactly
      when there is none and the commitment is proved, with that proof. Otherwise the answers are
      incomplete, and the translation fails. */
  lemma SentPacketMeaning(source: ChainView, at: Height, packet: Packet)
    ensures var r := Translate(source, EventAt(SendPacket(packet), at));
            && (r == Ok(None) <==> exists delay: nat :: delay > 0 && DelayIs(source, at, packet.source, delay))
            && forall m: Msg :: r == Ok(Some(m)) <==>
                 && m.RecvPacket? && m.packet == packet && DelayIs(source, at, packet.source, 0)
                 && ProofIs(source.packetProofs, at, packet.source, packet.sequence, m.proof)
  {
    forall delay: nat
      ensures ChannelDelay(source, at, packet.source) == Ok(delay) <==> DelayIs(source, at, packet.source, delay)
    {
      DelayKnown(source, at, packet.source, delay);
    }
    forall proof: Height
      ensures PacketProof(source.packetProofs, at, packet.source, packet.sequence) == Ok(proof) <==>
                ProofIs(source.packetProofs, at, packet.source, packet.sequence, proof)
    {
      ProofKnown(source.packetProofs, at, packet.source, packet.sequence, proof);
    }
  }

  /** The same for a written acknowledgement, which is looked up under the packet's source identifiers. */
  lemma WrittenAckMeaning(source: ChainView, at: Height, packet: Packet, ack: Bytes)
    ensures var r := Translate(source, EventAt(WriteAcknowledgement(packet, ack), at));
            && (r == Ok(None) <==> exists delay: nat :: delay > 0 && DelayIs(source, at, packet.source, delay))
            && forall m: Msg :: r == Ok(Some(m)) <==>
                 && m.Acknowledgement? && m.packet == packet && m.ackBytes == ack
                    && DelayIs(source, at, packet.source, 0)
                 && ProofIs(source.ackProofs, at, packet.source, packet.sequence, m.proof)
  {
    forall delay: nat
      ensures ChannelDelay(source, at, packet.source) == Ok(delay) <==> DelayIs(source, at, packet.source, delay)
    {
      DelayKnown(source, at, packet.source, delay);
    }
    forall proof: Height
      ensures PacketProof(source.ackProofs, at, packet.source, packet.sequence) == Ok(proof) <==>
                ProofIs(source.ackProofs, at, packet.source, packet.sequence, proof)
    {
      ProofKnown(source.ackProofs, at, packet.source, packet.sequence, proof);
    }
  }

  /** The identifier that a handshake event must carry to be translated. */
  function HandshakeId(event: Event): Option<Id> {
    match event
    case OpenInitConnection(id, _) => id
    case OpenTryConnection(id, _) => id
    case OpenAckConnection(id, _) => id
    case OpenInitChannel(_, id) => id
    case OpenTryChannel(_, id) => id
    case OpenAckChannel(_, id) => id
    case CloseInitChannel(_, id) => Some(id)
    case _ => None
  }

  /** Apart from packet events, an event gives nothing exactly when it has no such identifier; it then
      never makes the translation fail. */
  lemma HandshakeEventMeaning(source: ChainView, ev: EventAt)
    requires !IsPacketEvent(ev)
    ensures Translate(source, ev) == Ok(None) <==> HandshakeId(ev.event).None?
  {
  }

  // ---------- handshake events ----------

  ghost predicate ConnectionProved(source: ChainView, at: Height, id: Id, end: ConnectionEnd, proof: Height) {
    && (at, id) in source.connections
    && source.connections[(at, id)].end == Some(end) && source.connections[(at, id)].proofHeight == Some(proof)
  }

  ghost predicate ChannelProved(source: ChainView, at: Height, key: ChannelKey, end: ChannelEnd, proof: Height) {
    && (at, key) in source.channels
    && source.channels[(at, key)].end == Some(end) && source.channels[(at, key)].proofHeight == Some(proof)
  }

  /** The client is known, and so is the consensus state that it points to. */
  ghost predicate ClientProved(source: ChainView, at: Height, client: Id) {
    && (at, client) in source.clients && source.clients[(at, client)].Some?
    && (client, source.clients[(at, client)].value) in source.consensus
  }

  /** The message for a connection event, over the source's answers about the end and the client. */
  ghost predicate ConnectionStep(source: ChainView, at: Height, event: Event, m: Msg) {
    match event
    case OpenInitConnection(Some(id), client) =>
      && m.ConnOpenTry? && ClientProved(source, at, client)
      && exists end :: ConnectionProved(source, at, id, end, m.proof) &&
           m == ConnOpenTry(end.counterpartyConnection, end.counterpartyClient, client, id, end.versions, end.delay,
                            m.proof)
    case OpenTryConnection(Some(id), client) =>
      && m.ConnOpenAck? && ClientProved(source, at, client) && m.counterpartyId == id
      && exists end :: ConnectionProved(source, at, id, end, m.proof) &&
           end.counterpartyConnection == Some(m.connection) && end.versions != [] && m.chosen == end.versions[0]
    case OpenAckConnection(Some(id), _) =>
      && m.ConnOpenConfirm?
      && exists end :: ConnectionProved(source, at, id, end, m.proof) &&
           end.counterpartyConnection == Some(m.connection)
    case _ => false
  }

  lemma ConnectionEventMeaning(source: ChainView, ev: EventAt, m: Msg)
    requires ev.event.OpenInitConnection? || ev.event.OpenTryConnection? || ev.event.OpenAckConnection?
    ensures Translate(source, ev) == Ok(Some(m)) <==> ConnectionStep(source, ev.height, ev.event, m)
  {
    match ev.event
    case OpenInitConnection(Some(id), client) => OpenInitMeaning(source, ev.height, id, client, m);
    case OpenTryConnection(Some(id), client) => OpenTryMeaning(source, ev.height, id, client, m);
    case OpenAckConnection(Some(id), client) => OpenAckMeaning(source, ev.height, id, client, m);
    case _ =>
  }

  lemma OpenInitMeaning(source: ChainView, at: Height, id: Id, client: Id, m: Msg)
    ensures var event := OpenInitConnection(Some(id), client);
            Translate(source, EventAt(event, at)) == Ok(Some(m)) <==> ConnectionStep(source, at, event, m)
  {
    if source.ConnectionEndAt(at, id).Ok? && m.ConnOpenTry? {
      var end := source.ConnectionEndAt(at, id).value;
      assert ConnectionProved(source, at, id, end, m.proof) <==>
               source.connections[(at, id)].proofHeight == Some(m.proof);
    }
  }

  lemma OpenTryMeaning(source: ChainView, at: Height, id: Id, client: Id, m: Msg)
    ensures var event := OpenTryConnection(Some(id), client);
            Translate(source, EventAt(event, at)) == Ok(Some(m)) <==> ConnectionStep(source, at, event, m)
  {
    if source.ConnectionEndAt(at, id).Ok? && m.ConnOpenAck? {
      var end := source.ConnectionEndAt(at, id).value;
      assert ConnectionProved(source, at, id, end, m.proof) <==>
               source.connections[(at, id)].proofHeight == Some(m.proof);
    }
  }

  lemma OpenAckMeaning(source: ChainView, at: Height, id: Id, client: Id, m: Msg)
    ensures var event := OpenAckConnection(Some(id), client);
            Translate(source, EventAt(event, at)) == Ok(Some(m)) <==> ConnectionStep(source, at, event, m)
  {
    if source.ConnectionEndAt(at, id).Ok? && m.ConnOpenConfirm? {
      var end := source.ConnectionEndAt(at, id).value;
      assert ConnectionProved(source, at, id, end, m.proof) <==>
               source.connections[(at, id)].proofHeight == Some(m.proof);
    }
  }

  /** The message for a channel event, over the source's answer about the channel's end. */
  ghost predicate ChannelStep(source: ChainView, at: Height, event: Event, m: Msg) {
    match event
    case OpenInitChannel(port, Some(id)) =>
      && m.ChanOpenTry?
      && exists end :: ChannelProved(source, at, ChannelKey(id, port), end, m.proof) &&
           m == ChanOpenTry(end.counterpartyChannel, end.counterpartyPort,
                            ChannelEnd(ChanTryOpen, end.ordering, port, Some(id), end.hops, end.version),
                            end.version, m.proof)
    case OpenTryChannel(port, Some(id)) =>
      && m.ChanOpenAck? && m.counterpartyChannel == id
      && exists end :: ChannelProved(source, at, ChannelKey(id, port), end, m.proof) &&
           end.counterpartyChannel == Some(m.channel) && m.port == end.counterpartyPort
           && m.counterpartyVersion == end.version
    case OpenAckChannel(port, Some(id)) =>
      && m.ChanOpenConfirm?
      && exists end :: ChannelProved(source, at, ChannelKey(id, port), end, m.proof) &&
           end.counterpartyChannel == Some(m.channel) && m.port == end.counterpartyPort
    case CloseInitChannel(port, id) =>
      && m.ChanCloseConfirm?
      && exists end :: ChannelProved(source, at, ChannelKey(id, port), end, m.proof) &&
           end.counterpartyChannel == Some(m.channel) && m.port == end.counterpartyPort
    case _ => false
  }

  lemma ChannelEventMeaning(source: ChainView, ev: EventAt, m: Msg)
    requires ev.event.OpenInitChannel? || ev.event.OpenTryChannel? || ev.event.OpenAckChannel?
             || ev.event.CloseInitChannel?
    ensures Translate(source, ev) == Ok(Some(m)) <==> ChannelStep(source, ev.height, ev.event, m)
  {
    var id := HandshakeId(ev.event);
    if id.Some? && Translate(source, ev) == Ok(Some(m)) {
      var key := ChannelKey(id.value, ev.event.portId);
      assert ChannelProved(source, ev.height, key, source.ChannelEndAt(ev.height, key).value, m.proof);
    }
  }

  function Raise(reference: Height, proof: Height): Height {
    if reference.height >= proof.height then reference else proof
  }

  const FIRST_HEIGHT: Height := Height(0, 1)

  /** The running result over a list of events, from the left. */
  function Parse(source: ChainView, events: seq<EventAt>): Result<Parsed> {
    if events == [] then Ok(Parsed([], [], FIRST_HEIGHT))
    else
      var before :- Parse(source, Front(events));
      var message :- Translate(source, Last(events));
      if message.None? then Ok(before)
      else Ok(Parsed(before.messages + [message.value], before.timeouts,
                     Raise(before.proofHeight, message.value.proof)))
  }

  lemma {:induction false} ParsePrefix(source: ChainView, events: seq<EventAt>, n: nat)
    requires n <= |events|
    ensures Parse(source, events[..n]).Err? ==> Parse(source, events) == Parse(source, events[..n])
    ensures Parse(source, events).Ok? ==> Parse(source, events[..n]).Ok?
    ensures Parse(source, events).Ok? ==>
                  Parse(source, events[..n]).value.messages <= Parse(source, events).value.messages
  {
    if n < |events| {
      ParsePrefix(source, Front(events), n);
      assert Front(events)[..n] == events[..n];
    } else {
      assert events[..n] == events;
    }
  }

  method ParseEvents(source: ChainView, events: seq<EventAt>) returns (r: Result<Parsed>)
    ensures r == Parse(source, events)
  {
    var messages: seq<Msg> := [];
    var proofHeightRef: Height := FIRST_HEIGHT;
    for i := 0 to |events|
      invariant Parse(source, events[..i]) == Ok(Parsed(messages, [], proofHeightRef))
    {
      assert Front(events[..i + 1]) == events[..i];
      ParsePrefix(source, events, i + 1);
      var message := Translate(source, events[i]);
      if message.Err? {
        return Err(message.error);
      }
      if message.value.None? {
        continue;
      }
      var proof := message.value.value.proof;
      proofHeightRef := if proofHeightRef.height >= proof.height then proofHeightRef else proof;
      messages := messages + [message.value.value];
    }
    assert events[..|events|] == events;
    return Ok(Parsed(messages, [], proofHeightRef));
  }

  // ---------- what the result guarantees ----------

  /** Every message proves something at or below the returned height, and that height is no higher
      than needed: it is the start value or the proof height of one of the messages. */
  lemma {:induction false} ProofHeightIsGreatest(source: ChainView, events: seq<EventAt>)
    requires Parse(source, events).Ok?
    ensures var p := Parse(source, events).value;
            && p.timeouts == []
            && (forall m :: m in p.messages ==> !m.UpdateClient? && m.proof.height <= p.proofHeight.height)
            && (|| p.proofHeight == FIRST_HEIGHT
                || exists m :: m in p.messages && !m.UpdateClient? && m.proof == p.proofHeight)
  {
    if events != [] {
      ProofHeightIsGreatest(source, Front(events));
      var before, p := Parse(source, Front(events)).value, Parse(source, events).value;
      assert forall m :: m in before.messages ==> m in p.messages;
      if Translate(source, Last(events)).value.Some? {
        assert Translate(source, Last(events)).value.value in p.messages;
      }
    }
  }

  /** Of several greatest proof heights, which may differ in their revision numbers, the first one stays. */
  ghost predicate FirstGreatest(messages: seq<Msg>, i: nat, height: Height) {
    && i < |messages| && !messages[i].UpdateClient? && messages[i].proof == height
    && forall j :: 0 <= j < i ==> !messages[j].UpdateClient? && messages[j].proof.height < height.height
  }

  lemma {:induction false} ProofHeightIsFirstGreatest(source: ChainView, events: seq<EventAt>)
    requires Parse(source, events).Ok?
    ensures var p := Parse(source, events).value;
            if p.proofHeight.height == FIRST_HEIGHT.height then p.proofHeight == FIRST_HEIGHT
            else exists i :: FirstGreatest(p.messages, i, p.proofHeight)
  {
    if events != [] {
      ProofHeightIsFirstGreatest(source, Front(events));
      ProofHeightIsGreatest(source, Front(events));
      var before, p := Parse(source, Front(events)).value, Parse(source, events).value;
      var n := |before.messages|;
      if p.proofHeight != before.proofHeight {
        assert FirstGreatest(p.messages, n, p.proofHeight);
      } else if p.proofHeight.height != FIRST_HEIGHT.height {
        var i :| FirstGreatest(before.messages, i, before.proofHeight);
        assert FirstGreatest(p.messages, i, p.proofHeight);
      }
    }
  }

  /** Whether an event gives a message under these answers. */
  function Yields(source: ChainView): EventAt -> bool {
    ev => Translate(source, ev).Ok? && Translate(source, ev).value.Some?
  }

  /** Messages and the events that give one correspond one to one, in order. */
  lemma {:induction false} MessagesFollowEvents(source: ChainView, events: seq<EventAt>)
    requires Parse(source, events).Ok?
    ensures var p, kept := Parse(source, events).value, Keep(events, Yields(source));
            && |p.messages| == |kept|
            && forall i :: 0 <= i < |kept| ==> Translate(source, kept[i]) == Ok(Some(p.messages[i]))
  {
    if events != [] {
      MessagesFollowEvents(source, Front(events));
    }
  }

  ghost predicate FailsFirstAt(source: ChainView, events: seq<EventAt>, i: nat, error: Error) {
    && i < |events|
    && Translate(source, events[i]) == Err(error)
    && forall j :: 0 <= j < i ==> Translate(source, events[j]).Ok?
  }

  /** The first event that cannot be translated decides the error. */
  lemma {:induction false} ParseFailsAtFirst(source: ChainView, events: seq<EventAt>)
    ensures Parse(source, events).Ok? ==> forall i :: 0 <= i < |events| ==> Translate(source, events[i]).Ok?
    ensures Parse(source, events).Err? ==> exists i :: FailsFirstAt(source, events, i, Parse(source, events).error)
  {
    if events != [] {
      ParseFailsAtFirst(source, Front(events));
      FailureExtends(source, events);
    }
  }

  lemma FailureExtends(source: ChainView, events: seq<EventAt>)
    requires events != []
    requires Parse(source, Front(events)).Ok? ==>
                  forall i :: 0 <= i < |events| - 1 ==> Translate(source, Front(events)[i]).Ok?
    requires Parse(source, Front(events)).Err? ==>
               exists i :: FailsFirstAt(source, Front(events), i, Parse(source, Front(events)).error)
    ensures Parse(source, events).Ok? ==> forall i :: 0 <= i < |events| ==> Translate(source, events[i]).Ok?
    ensures Parse(source, events).Err? ==> exists i :: FailsFirstAt(source, events, i, Parse(source, events).error)
  {
    var front := Front(events);
    assert forall i :: 0 <= i < |front| ==> events[i] == front[i];
    if Parse(source, front).Err? {
      var error := Parse(source, front).error;
      var i :| FailsFirstAt(source, front, i, error);
      assert FailsFirstAt(source, events, i, error) && Parse(source, events) == Err(error);
    } else if Translate(source, Last(events)).Err? {
      var error := Translate(source, Last(events)).error;
      assert Translate(source, events[|front|]) == Err(error) && Parse(source, events) == Err(error);
      assert FailsFirstAt(source, events, |front|, error);
    }
  }

  predicate IsPacketEvent(ev: EventAt) {
    ev.event.SendPacket? || ev.event.WriteAcknowledgement?
  }

  predicate HasPacketEvents(events: seq<EventAt>) {
    exists ev :: ev in events && IsPacketEvent(ev)
  }
}
