/** The channel handshake: the relayer's translations against chains that follow 'Channel lifecycle
    management' of ICS-04. The relayer copies the source's connection hops into the end that it asks
    the sink to create, so the handshake depends on how the two chains number their connections. */
module ChannelHandshake {
  import opened Ibc
  import opened Events

  type Channels = map<ChannelKey, ChannelEnd>

  /** The connections of one chain: the counterparty's identifier of each open connection. */
  type Hops = map<Id, Id>

  /** OpenTry stores the expected end when its connection is open and the proof shows an Init end
      that runs over the counterparty of that connection. */
  ghost predicate TryAccepted(channels: Channels, hops: Hops, m: Msg, newId: Id, shown: ChannelEnd) {
    && m.ChanOpenTry? && ChannelKey(newId, m.port) !in channels
    && |m.expected.hops| == 1 && m.expected.hops[0] in hops
    && shown == ChannelEnd(ChanInit, m.expected.ordering, m.port, None, [hops[m.expected.hops[0]]],
                           m.counterpartyVersion)
  }

  ghost predicate AckAccepted(channels: Channels, hops: Hops, m: Msg, shown: ChannelEnd) {
    && m.ChanOpenAck? && ChannelKey(m.channel, m.port) in channels
    && var end := channels[ChannelKey(m.channel, m.port)];
    && end.state == ChanInit && |end.hops| == 1 && end.hops[0] in hops
    && shown == ChannelEnd(ChanTryOpen, end.ordering, m.port, Some(m.channel), [hops[end.hops[0]]],
                           m.counterpartyVersion)
  }

  ghost predicate ConfirmAccepted(channels: Channels, hops: Hops, m: Msg, shown: ChannelEnd) {
    && m.ChanOpenConfirm? && ChannelKey(m.channel, m.port) in channels
    && var end := channels[ChannelKey(m.channel, m.port)];
    && end.state == ChanTryOpen && |end.hops| == 1 && end.hops[0] in hops
    && shown == ChannelEnd(ChanOpen, end.ordering, m.port, Some(m.channel), [hops[end.hops[0]]], end.version)
  }

  ghost predicate CloseAccepted(channels: Channels, hops: Hops, m: Msg, shown: ChannelEnd) {
    && m.ChanCloseConfirm? && ChannelKey(m.channel, m.port) in channels
    && var end := channels[ChannelKey(m.channel, m.port)];
    && end.state != ChanClosed && |end.hops| == 1 && end.hops[0] in hops
    && shown == ChannelEnd(ChanClosed, end.ordering, m.port, Some(m.channel), [hops[end.hops[0]]], end.version)
  }

  /** The answer that a translation needs. */
  ghost predicate Answers(view: ChainView, at: Height, key: ChannelKey, end: ChannelEnd) {
    && (at, key) in view.channels && view.channels[(at, key)].end == Some(end)
    && view.channels[(at, key)].proofHeight.Some? && view.channels[(at, key)].proofHeight.value.height > 0
  }

  ghost function MessageOf(view: ChainView, at: Height, event: Event): Option<Msg> {
    var m := Translate(view, EventAt(event, at));
    if m.Ok? then m.value else None
  }

  /** The translation of an Init end is accepted exactly when the sink's connection of the same
      identifier leads back to that identifier. */
  lemma TryAcceptedIffSameHop(view: ChainView, at: Height, key: ChannelKey, init: ChannelEnd, channels: Channels,
                              hops: Hops, newId: Id)
    requires Answers(view, at, key, init) && init.state == ChanInit && init.counterpartyChannel == None
             && |init.hops| == 1
    requires ChannelKey(newId, init.counterpartyPort) !in channels
    ensures MessageOf(view, at, OpenInitChannel(key.port, Some(key.channel))).Some?
    ensures var m := MessageOf(view, at, OpenInitChannel(key.port, Some(key.channel))).value;
            && TryAcceptedAs(m, init, key)
            && (TryAccepted(channels, hops, m, newId, init) <==>
                  init.hops[0] in hops && hops[init.hops[0]] == init.hops[0])
  {
  }

  /** The end that the sink is asked to create answers the end `init` known to the source as `key`. */
  ghost predicate TryAcceptedAs(m: Msg, init: ChannelEnd, key: ChannelKey) {
    && m.ChanOpenTry? && m.port == init.counterpartyPort && m.previousChannel == init.counterpartyChannel
    && m.expected == ChannelEnd(ChanTryOpen, init.ordering, key.port, Some(key.channel), init.hops, init.version)
  }

  /** With one connection identifier on both chains, the three translations are accepted in turn, and
      the two open ends name each other. */
  lemma ThreeTranslationsOpen(hop: Id, key: ChannelKey, init: ChannelEnd, newId: Id, here: Channels,
                              there: Channels, hops: Hops,
                              view1: ChainView, at1: Height, view2: ChainView, at2: Height,
                              view3: ChainView, at3: Height)
    requires init.state == ChanInit && init.counterpartyChannel == None && init.hops == [hop] && hop in hops
             && hops[hop] == hop
    requires key in here && here[key] == init && ChannelKey(newId, init.counterpartyPort) !in there
    requires Answers(view1, at1, key, init)
    requires Answers(view2, at2, ChannelKey(newId, init.counterpartyPort), Tried(init, key))
    requires Answers(view3, at3, key, Acked(init, newId))
    ensures var newKey := ChannelKey(newId, init.counterpartyPort);
            var m1 := MessageOf(view1, at1, OpenInitChannel(key.port, Some(key.channel)));
            var m2 := MessageOf(view2, at2, OpenTryChannel(newKey.port, Some(newId)));
            var m3 := MessageOf(view3, at3, OpenAckChannel(key.port, Some(key.channel)));
            && m1.Some? && TryAccepted(there, hops, m1.value, newId, init) && m1.value.expected == Tried(init, key)
            && m2.Some? && AckAccepted(here, hops, m2.value, Tried(init, key))
            && ChannelKey(m2.value.channel, m2.value.port) == key && m2.value.counterpartyChannel == newId
            && m3.Some? && ConfirmAccepted(there[newKey := Tried(init, key)], hops, m3.value, Acked(init, newId))
            && ChannelKey(m3.value.channel, m3.value.port) == newKey
  {
  }

  /** The sink's end after OpenTry, and the source's end after OpenAck. */
  function Tried(init: ChannelEnd, key: ChannelKey): ChannelEnd {
    ChannelEnd(ChanTryOpen, init.ordering, key.port, Some(key.channel), init.hops, init.version)
  }

  function Acked(init: ChannelEnd, newId: Id): ChannelEnd {
    init.(state := ChanOpen, counterpartyChannel := Some(newId))
  }

  /** Closing one of two ends that name each other is confirmed at the other. */
  lemma CloseIsConfirmed(view: ChainView, at: Height, key: ChannelKey, closed: ChannelEnd, far: ChannelEnd,
                         there: Channels, hops: Hops)
    requires Answers(view, at, key, closed) && closed.state == ChanClosed && closed.counterpartyChannel.Some?
    requires var farKey := ChannelKey(closed.counterpartyChannel.value, closed.counterpartyPort);
             farKey in there && there[farKey] == far && far.state == ChanOpen
    requires far.ordering == closed.ordering && far.version == closed.version
    requires |far.hops| == 1 && far.hops[0] in hops && closed.hops == [hops[far.hops[0]]]
    ensures MessageOf(view, at, CloseInitChannel(key.port, key.channel)).Some?
    ensures CloseAccepted(there, hops, MessageOf(view, at, CloseInitChannel(key.port, key.channel)).value, closed)
  {
  }
}
