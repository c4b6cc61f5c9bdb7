/** What the sorter's output means: a certificate for every message, completeness, the partition of
    the undelivered packets, and the stability of readiness while both chains grow. */
module Readiness {
  import opened Ibc
  import opened Lists
  import opened Delay
  import opened ProofSearch
  import opened Undelivered
  import opened Timeouts
  import opened Sorter
  import opened Segments

  // ---------- one channel ----------

  /** What the context says about both chains: the source's open or closed end at its latest height
      with the delay of its first hop, the sink's end and next sequence under the counterparty's
      names, and the latest height of the source's client on the sink. */
  ghost predicate Describes(poll: Poll, key: ChannelKey, ctx: Context) {
    var source, sink := poll.source, poll.sink;
    && source.ChannelEndAt(source.height, key) == Ok(ctx.sourceEnd)
    && (ctx.sourceEnd.state == ChanOpen || ctx.sourceEnd.state == ChanClosed)
    && ctx.sourceEnd.hops != [] && source.ConnectionEndAt(source.height, ctx.sourceEnd.hops[0]).Ok?
    && source.ConnectionEndAt(source.height, ctx.sourceEnd.hops[0]).value.delay == ctx.delay
    && ctx.sourceEnd.counterpartyChannel == Some(ctx.there.channel) && ctx.sourceEnd.counterpartyPort == ctx.there.port
    && sink.ChannelEndAt(sink.height, ctx.there) == Ok(ctx.sinkEnd)
    && ctx.there in sink.nextReceive && sink.nextReceive[ctx.there] == ctx.next
    && sink.ClientHeight(sink.height, source.clientId) == Ok(ctx.latest)
  }

  lemma OpenContextMeaning(poll: Poll, key: ChannelKey, ctx: Context)
    ensures OpenContext(poll, key) == Ok(Some(ctx)) <==> Describes(poll, key, ctx)
  {
  }

  // ---------- one packet ----------

  ghost predicate DelayPassedSince(poll: Poll, host: ChainView, client: Id, delay: nat, proof: Height) {
    && (client, proof) in host.updates
    && var (updateHeight, updateTime) := host.updates[(client, proof)];
    && updateTime + delay <= poll.maxTime
    && DelayCovered(host, updateHeight, updateTime, delay)
  }

  /** `proof` is the first height, from the recording height on and up to the client's latest one,
      at which the sink stores a consensus state of the source, and the delay since has passed. */
  ghost predicate ProofReady(poll: Poll, ctx: Context, recorded: nat, proof: Height) {
    && recorded > 0
    && proof.number == ctx.latest.number
    && IsFirstStored(poll.sink.ConsensusOf(poll.source.clientId, ctx.latest.number), recorded, ctx.latest.height,
                     proof.height)
    && DelayPassedSince(poll, poll.sink, poll.source.clientId, ctx.delay, proof)
  }

  ghost predicate ReceiveReady(poll: Poll, ctx: Context, info: PacketInfo, proof: Height) {
    && !poll.timedOut(info.packet, poll.sink.time, poll.sink.height)
    && ctx.sinkEnd.state != ChanClosed
    && ProofReady(poll, ctx, info.height, proof)
  }

  ghost predicate TimeoutReady(poll: Poll, ctx: Context, info: PacketInfo, proof: Height) {
    && poll.timedOut(info.packet, poll.sink.time, poll.sink.height)
    && TimeoutProofHeight(poll.source, poll.sink, ctx.latest, info.packet, info.height) == Ok(Some(proof))
    && DelayPassedSince(poll, poll.source, poll.sink.clientId, ctx.delay, proof)
  }

  lemma ProvableMeaning(poll: Poll, ctx: Context, recorded: nat, proof: Height)
    requires poll.sink.height.height < U64_MAX
    ensures ProvableOnSink(poll, ctx, recorded) == Ok(Ready(proof)) <==> ProofReady(poll, ctx, recorded, proof)
  {
    var view := poll.sink.ConsensusOf(poll.source.clientId, ctx.latest.number);
    FirstStoredMeaning(view, recorded, ctx.latest.height);
    DelayPassedMeaning(poll.maxTime, poll.sink, poll.source.clientId, ctx.delay, proof);
    if recorded > 0 && recorded <= ctx.latest.height {
      var found := Suitable(view, Height(ctx.latest.number, recorded), None, ctx.latest);
      assert found == Some(proof) <==>
        proof.number == ctx.latest.number && FirstStored(view, recorded, ctx.latest.height) == Some(proof.height);
    }
  }

  /** The sorter relays a packet, or times it out, with a given proof height exactly when that
      height passes every gate of its side. */
  lemma DecisionMeaning(poll: Poll, ctx: Context, info: PacketInfo, proof: Height)
    requires poll.sink.height.height < U64_MAX && poll.source.height.height < U64_MAX
    ensures DecidePacket(poll, ctx, info) == Ok(Ready(proof)) <==> ReceiveReady(poll, ctx, info, proof)
    ensures DecidePacket(poll, ctx, info) == Ok(Expired(proof)) <==> TimeoutReady(poll, ctx, info, proof)
    ensures DecideAck(poll, ctx, info) == Ok(Ready(proof)) <==>
                  info.ack.Some? && ProofReady(poll, ctx, info.height, proof)
  {
    ProvableMeaning(poll, ctx, info.height, proof);
    DelayPassedMeaning(poll.maxTime, poll.source, poll.sink.clientId, ctx.delay, proof);
  }

  ghost predicate DelayOverflows(poll: Poll, host: ChainView, client: Id, delay: nat, proof: Height) {
    (client, proof) in host.updates && host.updates[(client, proof)].1 + delay > poll.maxTime
  }

  /** A proof height on the sink would be found, but the end of its delay is not representable; or the
      recording height is zero. */
  ghost predicate ProofAborts(poll: Poll, ctx: Context, recorded: nat) {
    || recorded == 0
    || exists proof: Height ::
         && proof.number == ctx.latest.number
         && IsFirstStored(poll.sink.ConsensusOf(poll.source.clientId, ctx.latest.number), recorded,
                          ctx.latest.height, proof.height)
         && DelayOverflows(poll, poll.sink, poll.source.clientId, ctx.delay, proof)
  }

  ghost predicate TimeoutAborts(poll: Poll, ctx: Context, info: PacketInfo) {
    || SearchStart(poll.source, poll.sink, info.packet, info.height).Err?
    || exists proof: Height ::
         && TimeoutProofHeight(poll.source, poll.sink, ctx.latest, info.packet, info.height) == Ok(Some(proof))
         && DelayOverflows(poll, poll.source, poll.sink.clientId, ctx.delay, proof)
  }

  /** When a decision fails, and with it the whole poll. */
  lemma DecisionFails(poll: Poll, ctx: Context, info: PacketInfo)
    ensures DecidePacket(poll, ctx, info).Err? <==>
              if poll.timedOut(info.packet, poll.sink.time, poll.sink.height) then TimeoutAborts(poll, ctx, info)
              else ctx.sinkEnd.state != ChanClosed && ProofAborts(poll, ctx, info.height)
    ensures DecideAck(poll, ctx, info).Err? <==> info.ack.Some? && ProofAborts(poll, ctx, info.height)
  {
    ProofFails(poll, ctx, info.height);
  }

  lemma ProofFails(poll: Poll, ctx: Context, recorded: nat)
    ensures ProvableOnSink(poll, ctx, recorded).Err? <==> ProofAborts(poll, ctx, recorded)
  {
    var view := poll.sink.ConsensusOf(poll.source.clientId, ctx.latest.number);
    FirstStoredMeaning(view, recorded, ctx.latest.height);
    if 0 < recorded && FirstStored(view, recorded, ctx.latest.height).Some? {
      var h := FirstStored(view, recorded, ctx.latest.height).value;
      var proof: Height := Height(ctx.latest.number, h);
      assert IsFirstStored(view, recorded, ctx.latest.height, proof.height);
      assert ProofAborts(poll, ctx, recorded) <==>
               DelayOverflows(poll, poll.sink, poll.source.clientId, ctx.delay, proof);
    }
  }

  /** The channel is neither open nor closed, or every query about it is answered and no decision about
      its packets and acknowledgements fails. */
  ghost predicate CanBeSorted(poll: Poll, key: ChannelKey) {
    && poll.source.ChannelEndAt(poll.source.height, key).Ok?
    && var state := poll.source.ChannelEndAt(poll.source.height, key).value.state;
    (state == ChanOpen || state == ChanClosed ==>
       exists ctx :: Describes(poll, key, ctx) && CanBeSortedIn(poll, key, ctx))
  }

  ghost predicate CanBeSortedIn(poll: Poll, key: ChannelKey, ctx: Context) {
    && ChannelPackets(poll, key).Ok? && ChannelAcks(poll, key).Ok?
    && (forall info :: info in ChannelPackets(poll, key).value ==> DecidePacket(poll, ctx, info).Ok?)
    && (ctx.sourceEnd.state != ChanClosed ==>
          forall info :: info in ChannelAcks(poll, key).value ==> DecideAck(poll, ctx, info).Ok?)
  }

  lemma {:induction false} SortPacketsFails(poll: Poll, ctx: Context, infos: seq<PacketInfo>)
    ensures SortPackets(poll, ctx, infos).Ok? <==> forall info :: info in infos ==> DecidePacket(poll, ctx, info).Ok?
  {
    if infos != [] {
      assert infos == Front(infos) + [Last(infos)];
      SortPacketsFails(poll, ctx, Front(infos));
    }
  }

  lemma {:induction false} SortAcksFails(poll: Poll, ctx: Context, infos: seq<PacketInfo>)
    ensures SortAcks(poll, ctx, infos).Ok? <==> forall info :: info in infos ==> DecideAck(poll, ctx, info).Ok?
  {
    if infos != [] {
      assert infos == Front(infos) + [Last(infos)];
      SortAcksFails(poll, ctx, Front(infos));
    }
  }

  lemma SortChannelFails(poll: Poll, key: ChannelKey)
    ensures SortChannel(poll, key).Ok? <==> CanBeSorted(poll, key)
  {
    if OpenContext(poll, key).Ok? && OpenContext(poll, key).value.Some? {
      var ctx := OpenContext(poll, key).value.value;
      OpenContextMeaning(poll, key, ctx);
      ContextUnique(poll, key, ctx);
      SortedInContext(poll, key, ctx);
    } else {
      NoContext(poll, key);
    }
  }

  lemma SortedInContext(poll: Poll, key: ChannelKey, ctx: Context)
    requires OpenContext(poll, key) == Ok(Some(ctx))
    ensures SortChannel(poll, key).Ok? <==> CanBeSortedIn(poll, key, ctx)
  {
    if ChannelPackets(poll, key).Ok? && ChannelAcks(poll, key).Ok? {
      SortPacketsFails(poll, ctx, ChannelPackets(poll, key).value);
      SortAcksFails(poll, ctx, ChannelAcks(poll, key).value);
    }
  }

  lemma ContextUnique(poll: Poll, key: ChannelKey, ctx: Context)
    requires Describes(poll, key, ctx)
    ensures forall other :: Describes(poll, key, other) ==> other == ctx
  {
  }

  lemma NoContext(poll: Poll, key: ChannelKey)
    requires !(OpenContext(poll, key).Ok? && OpenContext(poll, key).value.Some?)
    ensures forall ctx :: !Describes(poll, key, ctx)
    ensures OpenContext(poll, key).Ok? <==>
              && poll.source.ChannelEndAt(poll.source.height, key).Ok?
              && var state := poll.source.ChannelEndAt(poll.source.height, key).value.state;
              state != ChanOpen && state != ChanClosed
  {
    forall ctx
      ensures !Describes(poll, key, ctx)
    {
      OpenContextMeaning(poll, key, ctx);
    }
  }

  /** The poll succeeds exactly when every whitelisted channel can be sorted. */
  lemma {:induction false} SorterFails(poll: Poll, keys: seq<ChannelKey>)
    ensures SortChannels(poll, keys).Ok? <==> forall key :: key in keys ==> CanBeSorted(poll, key)
  {
    if keys != [] {
      assert keys == Front(keys) + [Last(keys)];
      SorterFails(poll, Front(keys));
      SortChannelFails(poll, Last(keys));
    }
  }

  /** What becomes of an expired packet, when the source's client of the sink holds every height up to
      `own` and shows the expiry first at `first`. The search is bounded by `ctx.latest`, the height of
      the other client: the packet is timed out exactly when the search looks at a height between
      `first` and `own` and the delay has passed since `first` was stored, and is skipped otherwise. */
  lemma ExpiredPacketDecision(poll: Poll, ctx: Context, info: PacketInfo, start: Height, own: nat, first: nat)
    requires poll.source.height.height < U64_MAX && poll.timedOut(info.packet, poll.sink.time, poll.sink.height)
    requires SearchStart(poll.source, poll.sink, info.packet, info.height) == Ok(Some(start))
    requires Holds(poll.source, poll.sink, start, own, ctx.latest.height)
    requires FirstExpiry(poll.source, poll.sink, info.packet, start, own, first)
    ensures var found := start.height <= ctx.latest.height &&
              Hits(ctx.latest.height - start.height + 1, ctx.latest.height, first, own);
            var proof := Height(start.number, first);
            && (DecidePacket(poll, ctx, info) == Ok(Expired(proof)) <==>
                  found && DelayPassedSince(poll, poll.source, poll.sink.clientId, ctx.delay, proof))
            && (!found ==> DecidePacket(poll, ctx, info) == Ok(Skip))
            && (DecidePacket(poll, ctx, info).Ok? ==> DecidePacket(poll, ctx, info).value in {Skip, Expired(proof)})
  {
    ProofHeightUnderBound(poll.source, poll.sink, ctx.latest, info.packet, info.height, start, own, first);
    DelayPassedMeaning(poll.maxTime, poll.source, poll.sink.clientId, ctx.delay, Height(start.number, first));
  }

  /** Whatever the client holds, an expired packet whose search would start above the bound is skipped. */
  lemma ExpiredAboveBoundIsSkipped(poll: Poll, ctx: Context, info: PacketInfo, start: Height)
    requires poll.timedOut(info.packet, poll.sink.time, poll.sink.height)
    requires SearchStart(poll.source, poll.sink, info.packet, info.height) == Ok(Some(start))
    requires ctx.latest.height < start.height
    ensures DecidePacket(poll, ctx, info) == Ok(Skip)
  {
  }

  /** A packet is timed out only if it has a timeout height and a timestamp that is not before the time at
      which it was created; so neither kind of timeout works alone. One without a height is skipped. */
  lemma TimeoutNeedsBothLimits(poll: Poll, ctx: Context, info: PacketInfo, proof: Height)
    ensures DecidePacket(poll, ctx, info) == Ok(Expired(proof)) ==>
              && info.packet.timeoutHeight.At? && info.height > 0
              && var created := poll.source.ClientHeight(Height(poll.source.height.number, info.height),
                                                         poll.sink.clientId);
              && created.Ok? && created.value.height in poll.sink.blockTimes
              && info.packet.timeoutTime >= poll.sink.blockTimes[created.value.height]
    ensures poll.timedOut(info.packet, poll.sink.time, poll.sink.height) && info.packet.timeoutHeight.Never? ==>
              DecidePacket(poll, ctx, info) == Ok(Skip)
  {
  }

  /** The start bound over all pending packets adds no client height to the block count, and so never
      exceeds the packet's timeout height; the search for one packet never starts below that height. */
  lemma StartBoundIsLower(source: ChainView, sink: ChainView, info: PacketInfo)
    requires TimeoutStart(source, sink, info).Some?
    requires SearchStart(source, sink, info.packet, info.height).Ok?
    requires SearchStart(source, sink, info.packet, info.height).value.Some?
    ensures info.packet.timeoutHeight.At?
    ensures TimeoutStart(source, sink, info).value
         <= info.packet.timeoutHeight.height.height
         <= SearchStart(source, sink, info.packet, info.height).value.value.height
  {
  }

  // ---------- all packets of a channel ----------

  function ReadyAt(poll: Poll, ctx: Context, infos: seq<PacketInfo>): nat -> bool {
    i => 0 <= i < |infos| && DecidePacket(poll, ctx, infos[i]).Ok? && DecidePacket(poll, ctx, infos[i]).value.Ready?
  }

  function ExpiredAt(poll: Poll, ctx: Context, infos: seq<PacketInfo>): nat -> bool {
    i => 0 <= i < |infos| && DecidePacket(poll, ctx, infos[i]).Ok? && DecidePacket(poll, ctx, infos[i]).value.Expired?
  }

  function AckReadyAt(poll: Poll, ctx: Context, infos: seq<PacketInfo>): nat -> bool {
    i => 0 <= i < |infos| && DecideAck(poll, ctx, infos[i]).Ok? && DecideAck(poll, ctx, infos[i]).value.Ready?
  }

  /** `messages` holds one message for each chosen position, in order, and each is the message that
      `expected` describes for the packet at its position. */
  ghost predicate OneEach(messages: seq<Msg>, infos: seq<PacketInfo>, chosen: nat -> bool, expected: (PacketInfo,
                          Msg) -> bool) {
    && |messages| == |Positions(|infos|, chosen)|
    && forall k :: 0 <= k < |messages| ==> expected(infos[Positions(|infos|, chosen)[k]], messages[k])
  }

  ghost function ReceiveMessage(poll: Poll, ctx: Context): (PacketInfo, Msg) -> bool {
    (info: PacketInfo, m: Msg) => m.RecvPacket? && m.packet == info.packet && ReceiveReady(poll, ctx, info, m.proof)
  }

  ghost function TimeoutMessageOf(poll: Poll, ctx: Context): (PacketInfo, Msg) -> bool {
    (info: PacketInfo, m: Msg) =>
      && (m.Timeout? || m.TimeoutOnClose?)
      && TimeoutReady(poll, ctx, info, m.proof)
      && m == TimeoutMessage(ctx.sinkEnd, info.packet, ctx.next, m.proof)
  }

  ghost function AckMessage(poll: Poll, ctx: Context): (PacketInfo, Msg) -> bool {
    (info: PacketInfo, m: Msg) =>
      && m.Acknowledgement? && m.packet == info.packet && info.ack == Some(m.ackBytes)
      && ProofReady(poll, ctx, info.height, m.proof)
  }

  lemma {:induction false} PositionsSame(n: nat, p: nat -> bool, q: nat -> bool)
    requires forall i :: 0 <= i < n ==> p(i) == q(i)
    ensures Positions(n, p) == Positions(n, q)
  {
    if n > 0 {
      PositionsSame(n - 1, p, q);
    }
  }

  /** One more position is appended when it is chosen. */
  lemma PositionsStep(n: nat, chosen: nat -> bool, before: nat -> bool)
    requires forall i :: 0 <= i < n ==> chosen(i) == before(i)
    ensures Positions(n + 1, chosen) == Positions(n, before) + if chosen(n) then [n] else []
  {
    PositionsSame(n, chosen, before);
    assert Positions(n + 1, chosen) == Positions(n, chosen) + if chosen(n) then [n] else [];
  }

  lemma OneEachStep(messages: seq<Msg>, added: seq<Msg>, infos: seq<PacketInfo>, before: nat -> bool,
                    chosen: nat -> bool,
                    expected: (PacketInfo, Msg) -> bool)
    requires infos != [] && OneEach(messages, Front(infos), before, expected)
    requires forall i :: 0 <= i < |infos| - 1 ==> chosen(i) == before(i)
    requires if chosen(|infos| - 1) then |added| == 1 && expected(Last(infos), added[0]) else added == []
    ensures OneEach(messages + added, infos, chosen, expected)
  {
    var n := |infos| - 1;
    PositionsStep(n, chosen, before);
    var kept, all := Positions(n, before), Positions(n + 1, chosen);
    assert |all| == |messages + added|;
    forall k | 0 <= k < |messages + added|
      ensures expected(infos[all[k]], (messages + added)[k])
    {
      if k < |messages| {
        assert all[k] == kept[k] < n;
        assert expected(Front(infos)[kept[k]], messages[k]);
      } else {
        assert all[k] == n;
      }
    }
  }

  /** Every undelivered packet gets at most one message; the packets to be received and the packets
      to be timed out sit at disjoint positions; each message is certified; and a packet that passes
      all the gates of its side has its message. */
  lemma {:induction false} SortedPacketsMeaning(poll: Poll, ctx: Context, infos: seq<PacketInfo>)
    requires poll.sink.height.height < U64_MAX && poll.source.height.height < U64_MAX
    requires SortPackets(poll, ctx, infos).Ok?
    ensures OneEach(SortPackets(poll, ctx, infos).value.ready, infos, ReadyAt(poll, ctx, infos),
                    ReceiveMessage(poll, ctx))
    ensures OneEach(SortPackets(poll, ctx, infos).value.timeouts, infos, ExpiredAt(poll, ctx, infos),
                    TimeoutMessageOf(poll, ctx))
    ensures forall i :: 0 <= i < |infos| ==> !(ReadyAt(poll, ctx, infos)(i) && ExpiredAt(poll, ctx, infos)(i))
    ensures forall i, proof :: 0 <= i < |infos| && ReceiveReady(poll, ctx, infos[i], proof) ==>
                  ReadyAt(poll, ctx, infos)(i)
    ensures forall i, proof :: 0 <= i < |infos| && TimeoutReady(poll, ctx, infos[i], proof) ==>
                  ExpiredAt(poll, ctx, infos)(i)
  {
    forall i, proof: Height | 0 <= i < |infos|
      ensures ReceiveReady(poll, ctx, infos[i], proof) ==> ReadyAt(poll, ctx, infos)(i)
      ensures TimeoutReady(poll, ctx, infos[i], proof) ==> ExpiredAt(poll, ctx, infos)(i)
    {
      DecisionMeaning(poll, ctx, infos[i], proof);
    }
    SortedPacketsOrder(poll, ctx, infos);
  }

  lemma {:induction false} SortedPacketsOrder(poll: Poll, ctx: Context, infos: seq<PacketInfo>)
    requires poll.sink.height.height < U64_MAX && poll.source.height.height < U64_MAX
    requires SortPackets(poll, ctx, infos).Ok?
    ensures OneEach(SortPackets(poll, ctx, infos).value.ready, infos, ReadyAt(poll, ctx, infos),
                    ReceiveMessage(poll, ctx))
    ensures OneEach(SortPackets(poll, ctx, infos).value.timeouts, infos, ExpiredAt(poll, ctx, infos),
                    TimeoutMessageOf(poll, ctx))
  {
    if infos != [] {
      SortedPacketsOrder(poll, ctx, Front(infos));
      ReadyStep(poll, ctx, infos);
      TimeoutsStep(poll, ctx, infos);
    }
  }

  lemma ReadyStep(poll: Poll, ctx: Context, infos: seq<PacketInfo>)
    requires poll.sink.height.height < U64_MAX && poll.source.height.height < U64_MAX
    requires infos != [] && SortPackets(poll, ctx, infos).Ok?
    requires var before := Front(infos);
             OneEach(SortPackets(poll, ctx, before).value.ready, before, ReadyAt(poll, ctx, before),
                     ReceiveMessage(poll, ctx))
    ensures OneEach(SortPackets(poll, ctx, infos).value.ready, infos, ReadyAt(poll, ctx, infos),
                    ReceiveMessage(poll, ctx))
  {
    var before, info := Front(infos), Last(infos);
    var decision := DecidePacket(poll, ctx, info).value;
    if decision.Ready? {
      DecisionMeaning(poll, ctx, info, decision.proof);
    }
    OneEachStep(SortPackets(poll, ctx, before).value.ready, PacketMessages(ctx, info, decision).ready, infos,
                ReadyAt(poll, ctx, before), ReadyAt(poll, ctx, infos), ReceiveMessage(poll, ctx));
  }

  lemma TimeoutsStep(poll: Poll, ctx: Context, infos: seq<PacketInfo>)
    requires poll.sink.height.height < U64_MAX && poll.source.height.height < U64_MAX
    requires infos != [] && SortPackets(poll, ctx, infos).Ok?
    requires var before := Front(infos);
             OneEach(SortPackets(poll, ctx, before).value.timeouts, before, ExpiredAt(poll, ctx, before),
                     TimeoutMessageOf(poll, ctx))
    ensures OneEach(SortPackets(poll, ctx, infos).value.timeouts, infos, ExpiredAt(poll, ctx, infos),
                    TimeoutMessageOf(poll, ctx))
  {
    var before, info := Front(infos), Last(infos);
    var decision := DecidePacket(poll, ctx, info).value;
    if decision.Expired? {
      DecisionMeaning(poll, ctx, info, decision.proof);
    }
    OneEachStep(SortPackets(poll, ctx, before).value.timeouts, PacketMessages(ctx, info, decision).timeouts, infos,
                ExpiredAt(poll, ctx, before), ExpiredAt(poll, ctx, infos), TimeoutMessageOf(poll, ctx));
  }

  lemma {:induction false} SortedAcksMeaning(poll: Poll, ctx: Context, infos: seq<PacketInfo>)
    requires poll.sink.height.height < U64_MAX && poll.source.height.height < U64_MAX
    requires SortAcks(poll, ctx, infos).Ok?
    ensures OneEach(SortAcks(poll, ctx, infos).value, infos, AckReadyAt(poll, ctx, infos), AckMessage(poll, ctx))
  {
    if infos != [] {
      var before, info := Front(infos), Last(infos);
      SortedAcksMeaning(poll, ctx, before);
      var decision := DecideAck(poll, ctx, info).value;
      if decision.Ready? {
        DecisionMeaning(poll, ctx, info, decision.proof);
      }
      OneEachStep(SortAcks(poll, ctx, before).value, AckMessages(info, decision), infos,
                  AckReadyAt(poll, ctx, before), AckReadyAt(poll, ctx, infos), AckMessage(poll, ctx));
    }
  }

  // ---------- the whole output, channel by channel ----------

  /** The undelivered packets that pass every gate of their side, and the acknowledgements likewise. */
  ghost function CanBeReceived(poll: Poll, ctx: Context, infos: seq<PacketInfo>): nat -> bool {
    i => 0 <= i < |infos| && exists proof: Height :: ReceiveReady(poll, ctx, infos[i], proof)
  }

  ghost function CanBeTimedOut(poll: Poll, ctx: Context, infos: seq<PacketInfo>): nat -> bool {
    i => 0 <= i < |infos| && exists proof: Height :: TimeoutReady(poll, ctx, infos[i], proof)
  }

  ghost function CanBeAcked(poll: Poll, ctx: Context, infos: seq<PacketInfo>): nat -> bool {
    i => 0 <= i < |infos| && infos[i].ack.Some? && exists proof: Height :: ProofReady(poll, ctx, infos[i].height, proof)
  }

  /** What one channel adds: a message for each undelivered packet that can be received, then one for each
      acknowledgement unless the source's end is closed, and a timeout for each packet that can be timed
      out, all in order. */
  ghost predicate SegmentUnder(poll: Poll, key: ChannelKey, ctx: Context, receives: seq<Msg>, acks: seq<Msg>,
                               timeouts: seq<Msg>) {
    && ChannelPackets(poll, key).Ok? && ChannelAcks(poll, key).Ok?
    && var infos, ackInfos := ChannelPackets(poll, key).value, ChannelAcks(poll, key).value;
    && OneEach(receives, infos, CanBeReceived(poll, ctx, infos), ReceiveMessage(poll, ctx))
    && OneEach(timeouts, infos, CanBeTimedOut(poll, ctx, infos), TimeoutMessageOf(poll, ctx))
    && if ctx.sourceEnd.state == ChanClosed then acks == []
       else OneEach(acks, ackInfos, CanBeAcked(poll, ctx, ackInfos), AckMessage(poll, ctx))
  }

  /** A channel that is neither open nor closed adds nothing. */
  ghost predicate Segment(poll: Poll, key: ChannelKey, receives: seq<Msg>, acks: seq<Msg>, timeouts: seq<Msg>) {
    && poll.source.ChannelEndAt(poll.source.height, key).Ok?
    && var state := poll.source.ChannelEndAt(poll.source.height, key).value.state;
    if state == ChanOpen || state == ChanClosed then
      exists ctx :: Describes(poll, key, ctx) && SegmentUnder(poll, key, ctx, receives, acks, timeouts)
    else receives == [] && acks == [] && timeouts == []
  }

  ghost function SegmentOf(poll: Poll): Shape {
    (key, receives, acks, timeouts) => Segment(poll, key, receives, acks, timeouts)
  }

  lemma OneEachSame(messages: seq<Msg>, infos: seq<PacketInfo>, chosen: nat -> bool, other: nat -> bool,
                    expected: (PacketInfo, Msg) -> bool)
    requires OneEach(messages, infos, chosen, expected)
    requires forall i :: 0 <= i < |infos| ==> chosen(i) == other(i)
    ensures OneEach(messages, infos, other, expected)
  {
    PositionsSame(|infos|, chosen, other);
  }

  lemma PacketSegment(poll: Poll, ctx: Context, infos: seq<PacketInfo>)
    requires poll.sink.height.height < U64_MAX && poll.source.height.height < U64_MAX
    requires SortPackets(poll, ctx, infos).Ok?
    ensures var sorted := SortPackets(poll, ctx, infos).value;
            && OneEach(sorted.ready, infos, CanBeReceived(poll, ctx, infos), ReceiveMessage(poll, ctx))
            && OneEach(sorted.timeouts, infos, CanBeTimedOut(poll, ctx, infos), TimeoutMessageOf(poll, ctx))
  {
    var sorted := SortPackets(poll, ctx, infos).value;
    SortedPacketsOrder(poll, ctx, infos);
    forall i | 0 <= i < |infos|
      ensures ReadyAt(poll, ctx, infos)(i) == CanBeReceived(poll, ctx, infos)(i)
      ensures ExpiredAt(poll, ctx, infos)(i) == CanBeTimedOut(poll, ctx, infos)(i)
    {
      DecidedByGates(poll, ctx, infos[i]);
    }
    OneEachSame(sorted.ready, infos, ReadyAt(poll, ctx, infos), CanBeReceived(poll, ctx, infos),
                ReceiveMessage(poll, ctx));
    OneEachSame(sorted.timeouts, infos, ExpiredAt(poll, ctx, infos), CanBeTimedOut(poll, ctx, infos),
                TimeoutMessageOf(poll, ctx));
  }

  lemma DecidedByGates(poll: Poll, ctx: Context, info: PacketInfo)
    requires poll.sink.height.height < U64_MAX && poll.source.height.height < U64_MAX
    ensures var d := DecidePacket(poll, ctx, info);
            && (d.Ok? && d.value.Ready? <==> exists proof: Height :: ReceiveReady(poll, ctx, info, proof))
            && (d.Ok? && d.value.Expired? <==> exists proof: Height :: TimeoutReady(poll, ctx, info, proof))
    ensures var d := DecideAck(poll, ctx, info);
            d.Ok? && d.value.Ready? <==>
              info.ack.Some? && exists proof: Height :: ProofReady(poll, ctx, info.height, proof)
  {
    forall proof: Height
      ensures DecidePacket(poll, ctx, info) == Ok(Ready(proof)) <==> ReceiveReady(poll, ctx, info, proof)
      ensures DecidePacket(poll, ctx, info) == Ok(Expired(proof)) <==> TimeoutReady(poll, ctx, info, proof)
      ensures DecideAck(poll, ctx, info) == Ok(Ready(proof)) <==>
                info.ack.Some? && ProofReady(poll, ctx, info.height, proof)
    {
      DecisionMeaning(poll, ctx, info, proof);
    }
  }

  lemma AckSegment(poll: Poll, ctx: Context, infos: seq<PacketInfo>)
    requires poll.sink.height.height < U64_MAX && poll.source.height.height < U64_MAX
    requires SortAcks(poll, ctx, infos).Ok?
    ensures OneEach(SortAcks(poll, ctx, infos).value, infos, CanBeAcked(poll, ctx, infos), AckMessage(poll, ctx))
  {
    SortedAcksMeaning(poll, ctx, infos);
    forall i | 0 <= i < |infos|
      ensures AckReadyAt(poll, ctx, infos)(i) == CanBeAcked(poll, ctx, infos)(i)
    {
      DecidedByGates(poll, ctx, infos[i]);
    }
    OneEachSame(SortAcks(poll, ctx, infos).value, infos, AckReadyAt(poll, ctx, infos), CanBeAcked(poll, ctx, infos),
                AckMessage(poll, ctx));
  }

  lemma ChannelSegment(poll: Poll, key: ChannelKey) returns (receives: seq<Msg>, acks: seq<Msg>, timeouts: seq<Msg>)
    requires poll.sink.height.height < U64_MAX && poll.source.height.height < U64_MAX
    requires SortChannel(poll, key).Ok?
    ensures SortChannel(poll, key).value == Sorted(receives + acks, timeouts)
    ensures Segment(poll, key, receives, acks, timeouts)
  {
    if OpenContext(poll, key).value.None? {
      receives, acks, timeouts := [], [], [];
    } else {
      var ctx := OpenContext(poll, key).value.value;
      var infos, ackInfos := ChannelPackets(poll, key).value, ChannelAcks(poll, key).value;
      OpenContextMeaning(poll, key, ctx);
      PacketSegment(poll, ctx, infos);
      var packets := SortPackets(poll, ctx, infos).value;
      receives, acks, timeouts := packets.ready, [], packets.timeouts;
      if ctx.sourceEnd.state != ChanClosed {
        AckSegment(poll, ctx, ackInfos);
        acks := SortAcks(poll, ctx, ackInfos).value;
      }
      assert SegmentUnder(poll, key, ctx, receives, acks, timeouts);
    }
  }

  /** The whole output is split into the segments of the listed channels. */
  lemma {:induction false} OutputSplits(poll: Poll, keys: seq<ChannelKey>) returns (cuts: Cuts)
    requires poll.sink.height.height < U64_MAX && poll.source.height.height < U64_MAX
    requires SortChannels(poll, keys).Ok?
    ensures SplitsInto(SegmentOf(poll), keys, SortChannels(poll, keys).value, cuts)
  {
    if keys == [] {
      cuts := Cuts([0], [], [0]);
    } else {
      var before := OutputSplits(poll, Front(keys));
      var receives, acks, timeouts := ChannelSegment(poll, Last(keys));
      var sorted := SortChannels(poll, Front(keys)).value;
      cuts := AddSegment(SegmentOf(poll), keys, sorted, before, receives, acks, timeouts);
    }
  }

  // ---------- membership in the whole output ----------

  lemma {:induction false} PacketMessageListed(poll: Poll, ctx: Context, infos: seq<PacketInfo>, info: PacketInfo,
                                               decision: Decision)
    requires SortPackets(poll, ctx, infos).Ok? && info in infos
    requires DecidePacket(poll, ctx, info) == Ok(decision)
    ensures forall m :: m in PacketMessages(ctx, info, decision).ready ==>
                          m in SortPackets(poll, ctx, infos).value.ready
    ensures forall m :: m in PacketMessages(ctx, info, decision).timeouts ==>
                          m in SortPackets(poll, ctx, infos).value.timeouts
  {
    assert infos == Front(infos) + [Last(infos)];
    if info != Last(infos) {
      PacketMessageListed(poll, ctx, Front(infos), info, decision);
    }
  }

  /** The messages of a channel's packets are among all messages of the channel. */
  lemma ChannelHoldsPackets(poll: Poll, key: ChannelKey, ctx: Context)
    requires OpenContext(poll, key) == Ok(Some(ctx)) && SortChannel(poll, key).Ok?
    ensures ChannelPackets(poll, key).Ok? && SortPackets(poll, ctx, ChannelPackets(poll, key).value).Ok?
    ensures var packets := SortPackets(poll, ctx, ChannelPackets(poll, key).value).value;
            packets.ready <= SortChannel(poll, key).value.ready
            && packets.timeouts <= SortChannel(poll, key).value.timeouts
  {
  }

  /** What is decided for a packet of a channel ends up in the whole output. */
  lemma DecisionIsOffered(poll: Poll, keys: seq<ChannelKey>, key: ChannelKey, ctx: Context, info: PacketInfo,
                          decision: Decision)
    requires key in keys && SortChannels(poll, keys).Ok? && OpenContext(poll, key) == Ok(Some(ctx))
    requires ChannelPackets(poll, key).Ok? && info in ChannelPackets(poll, key).value
    requires DecidePacket(poll, ctx, info) == Ok(decision)
    ensures var offered := PacketMessages(ctx, info, decision);
            && (forall m :: m in offered.ready ==> m in SortChannels(poll, keys).value.ready)
            && (forall m :: m in offered.timeouts ==> m in SortChannels(poll, keys).value.timeouts)
  {
    ChannelListed(poll, keys, key);
    ChannelHoldsPackets(poll, key, ctx);
    PacketMessageListed(poll, ctx, ChannelPackets(poll, key).value, info, decision);
  }

  lemma {:induction false} AckMessageListed(poll: Poll, ctx: Context, infos: seq<PacketInfo>, info: PacketInfo,
                                            proof: Height)
    requires SortAcks(poll, ctx, infos).Ok? && info in infos && info.ack.Some?
    requires DecideAck(poll, ctx, info) == Ok(Ready(proof))
    ensures Acknowledgement(info.packet, info.ack.value, proof) in SortAcks(poll, ctx, infos).value
  {
    assert infos == Front(infos) + [Last(infos)];
    if info != Last(infos) {
      AckMessageListed(poll, ctx, Front(infos), info, proof);
    }
  }

  lemma {:induction false} ChannelListed(poll: Poll, keys: seq<ChannelKey>, key: ChannelKey)
    requires SortChannels(poll, keys).Ok? && key in keys
    ensures SortChannel(poll, key).Ok?
    ensures forall m :: m in SortChannel(poll, key).value.ready ==> m in SortChannels(poll, keys).value.ready
    ensures forall m :: m in SortChannel(poll, key).value.timeouts ==> m in SortChannels(poll, keys).value.timeouts
  {
    assert keys == Front(keys) + [Last(keys)];
    if key != Last(keys) {
      ChannelListed(poll, Front(keys), key);
    }
  }

  /** `m` relays `info`, one of the undelivered packets or acknowledgements of channel `key`, and
      its proof height passes every gate. */
  ghost predicate Certified(poll: Poll, key: ChannelKey, info: PacketInfo, m: Msg) {
    && OpenContext(poll, key).Ok? && OpenContext(poll, key).value.Some?
    && var ctx := OpenContext(poll, key).value.value;
    || (ChannelPackets(poll, key).Ok? && info in ChannelPackets(poll, key).value && ReceiveMessage(poll, ctx)(info, m))
    || (ChannelAcks(poll, key).Ok? && info in ChannelAcks(poll, key).value && AckMessage(poll, ctx)(info, m))
  }

  lemma OneEachMember(messages: seq<Msg>, infos: seq<PacketInfo>, chosen: nat -> bool, expected: (PacketInfo,
                      Msg) -> bool, m: Msg)
    requires OneEach(messages, infos, chosen, expected) && m in messages
    ensures exists info :: info in infos && expected(info, m)
  {
  }

  lemma ChannelMessageCertified(poll: Poll, key: ChannelKey, m: Msg)
    requires poll.sink.height.height < U64_MAX && poll.source.height.height < U64_MAX
    requires SortChannel(poll, key).Ok? && m in SortChannel(poll, key).value.ready
    ensures exists info :: Certified(poll, key, info, m)
  {
    var ctx := OpenContext(poll, key).value.value;
    var infos, ackInfos := ChannelPackets(poll, key).value, ChannelAcks(poll, key).value;
    var packets := SortPackets(poll, ctx, infos).value.ready;
    if m in packets {
      SortedPacketsOrder(poll, ctx, infos);
      OneEachMember(packets, infos, ReadyAt(poll, ctx, infos), ReceiveMessage(poll, ctx), m);
      var info :| info in infos && ReceiveMessage(poll, ctx)(info, m);
      assert Certified(poll, key, info, m);
    } else {
      SortedAcksMeaning(poll, ctx, ackInfos);
      var acks := SortAcks(poll, ctx, ackInfos).value;
      OneEachMember(acks, ackInfos, AckReadyAt(poll, ctx, ackInfos), AckMessage(poll, ctx), m);
      var info :| info in ackInfos && AckMessage(poll, ctx)(info, m);
      assert Certified(poll, key, info, m);
    }
  }

  /** Soundness of the whole output: every message to the sink is certified for some listed channel. */
  lemma {:induction false} EveryMessageCertified(poll: Poll, keys: seq<ChannelKey>, m: Msg)
    requires poll.sink.height.height < U64_MAX && poll.source.height.height < U64_MAX
    requires SortChannels(poll, keys).Ok? && m in SortChannels(poll, keys).value.ready
    ensures exists key, info :: key in keys && Certified(poll, key, info, m)
  {
    var last := SortChannel(poll, Last(keys)).value;
    if m in last.ready {
      ChannelMessageCertified(poll, Last(keys), m);
      var info :| Certified(poll, Last(keys), info, m);
      assert Last(keys) in keys && Certified(poll, Last(keys), info, m);
    } else {
      EveryMessageCertified(poll, Front(keys), m);
      var key, info :| key in Front(keys) && Certified(poll, key, info, m);
      assert key in keys && Certified(poll, key, info, m);
    }
  }

  /** `m` times out `info`, one of the undelivered packets of channel `key`: its kind and the absence
      it proves follow the sink's end, and its proof height passes every gate. */
  ghost predicate TimeoutCertified(poll: Poll, key: ChannelKey, info: PacketInfo, m: Msg) {
    && OpenContext(poll, key).Ok? && OpenContext(poll, key).value.Some?
    && ChannelPackets(poll, key).Ok? && info in ChannelPackets(poll, key).value
    && TimeoutMessageOf(poll, OpenContext(poll, key).value.value)(info, m)
  }

  lemma ChannelTimeoutCertified(poll: Poll, key: ChannelKey, m: Msg)
    requires poll.sink.height.height < U64_MAX && poll.source.height.height < U64_MAX
    requires SortChannel(poll, key).Ok? && m in SortChannel(poll, key).value.timeouts
    ensures exists info :: TimeoutCertified(poll, key, info, m)
  {
    var ctx, infos := OpenContext(poll, key).value.value, ChannelPackets(poll, key).value;
    SortedPacketsOrder(poll, ctx, infos);
    OneEachMember(SortPackets(poll, ctx, infos).value.timeouts, infos, ExpiredAt(poll, ctx, infos),
                  TimeoutMessageOf(poll, ctx), m);
    var info :| info in infos && TimeoutMessageOf(poll, ctx)(info, m);
    assert TimeoutCertified(poll, key, info, m);
  }

  /** The same for every message to the source. */
  lemma {:induction false} EveryTimeoutCertified(poll: Poll, keys: seq<ChannelKey>, m: Msg)
    requires poll.sink.height.height < U64_MAX && poll.source.height.height < U64_MAX
    requires SortChannels(poll, keys).Ok? && m in SortChannels(poll, keys).value.timeouts
    ensures exists key, info :: key in keys && TimeoutCertified(poll, key, info, m)
  {
    var last := SortChannel(poll, Last(keys)).value;
    if m in last.timeouts {
      ChannelTimeoutCertified(poll, Last(keys), m);
      var info :| TimeoutCertified(poll, Last(keys), info, m);
      assert Last(keys) in keys && TimeoutCertified(poll, Last(keys), info, m);
    } else {
      EveryTimeoutCertified(poll, Front(keys), m);
      var key, info :| key in Front(keys) && TimeoutCertified(poll, key, info, m);
      assert key in keys && TimeoutCertified(poll, key, info, m);
    }
  }

  // ---------- stability ----------

  /** Both chains have only grown, as seen through one channel: heights and times do not fall, the
      channel and connection keep their identity, recorded events and client updates stay, and the
      client on the sink gains consensus states only above its latest height. */
  ghost predicate Grows(poll: Poll, later: Poll, key: ChannelKey) {
    var s, s', t, t' := poll.source, later.source, poll.sink, later.sink;
    && s.clientId == s'.clientId && t.clientId == t'.clientId && t.blockTime == t'.blockTime
       && poll.maxTime == later.maxTime
    && t.time <= t'.time && t.height.AtMost(t'.height)
    && SameChannel(poll, later, key)
    && (forall c, h :: (c, h) in t.updates ==> (c, h) in t'.updates && t'.updates[(c, h)] == t.updates[(c, h)])
    && (forall k, n :: (k, n) in s.sent ==> (k, n) in s'.sent && s'.sent[(k, n)] == s.sent[(k, n)])
    && (forall k, n :: (k, n) in s.received ==> (k, n) in s'.received && s'.received[(k, n)] == s.received[(k, n)])
  }

  ghost predicate SameChannel(poll: Poll, later: Poll, key: ChannelKey) {
    && OpenContext(poll, key).Ok? && OpenContext(poll, key).value.Some?
    && OpenContext(later, key).Ok? && OpenContext(later, key).value.Some?
    && var c, c' := OpenContext(poll, key).value.value, OpenContext(later, key).value.value;
    && c.there == c'.there && c.delay == c'.delay && c.sourceEnd.ordering == c'.sourceEnd.ordering
    && c.latest.number == c'.latest.number && c.latest.height <= c'.latest.height
    && forall h :: 0 <= h <= c.latest.height ==>
         later.sink.ConsensusOf(later.source.clientId, c.latest.number)(h)
           == poll.sink.ConsensusOf(poll.source.clientId, c.latest.number)(h)
  }

  lemma {:induction false} FirstStoredExtends(view: Oracle, view': Oracle, start: nat, latest: nat, latest': nat)
    requires latest <= latest' && FirstStored(view, start, latest).Some?
    requires forall h :: 0 <= h <= latest ==> view'(h) == view(h)
    ensures FirstStored(view', start, latest') == FirstStored(view, start, latest)
    decreases if start > latest then 0 else latest + 1 - start
  {
    if view(start).Missing? {
      FirstStoredExtends(view, view', start + 1, latest, latest');
    }
  }

  lemma ProvableStable(poll: Poll, later: Poll, key: ChannelKey, recorded: nat, proof: Height)
    requires Grows(poll, later, key)
    requires ProvableOnSink(poll, OpenContext(poll, key).value.value, recorded) == Ok(Ready(proof))
    ensures ProvableOnSink(later, OpenContext(later, key).value.value, recorded) == Ok(Ready(proof))
  {
    var c, c' := OpenContext(poll, key).value.value, OpenContext(later, key).value.value;
    FirstStoredExtends(poll.sink.ConsensusOf(poll.source.clientId, c.latest.number),
                       later.sink.ConsensusOf(later.source.clientId, c.latest.number), recorded,
                       c.latest.height, c'.latest.height);
    DelayStaysPassed(poll.maxTime, poll.sink, later.sink, poll.source.clientId, c.delay, proof);
  }

  /** Whether sequence `s` still has to be relayed on the channel: committed on the source and not
      received on the sink. */
  ghost predicate StillUndelivered(poll: Poll, key: ChannelKey, s: nat) {
    && SenderSide(poll.source, key, poll.source.commitments).Ok?
    && s in AllUndelivered(poll.source, poll.sink, key)
  }

  /** Readiness to be received depends on the expiry, the sink's end and the proof height only. */
  lemma DecisionStays(poll: Poll, later: Poll, key: ChannelKey, info: PacketInfo, proof: Height)
    requires Grows(poll, later, key)
    requires DecidePacket(poll, OpenContext(poll, key).value.value, info) == Ok(Ready(proof))
    requires !later.timedOut(info.packet, later.sink.time, later.sink.height)
    requires OpenContext(later, key).value.value.sinkEnd.state != ChanClosed
    ensures DecidePacket(later, OpenContext(later, key).value.value, info) == Ok(Ready(proof))
  {
    ProvableStable(poll, later, key, info.height, proof);
  }

  lemma UndeliveredIsListed(poll: Poll, key: ChannelKey, s: nat)
    requires OpenContext(poll, key).Ok? && OpenContext(poll, key).value.Some?
    requires ChannelPackets(poll, key).Ok? && (key, s) in poll.source.sent
    requires StillUndelivered(poll, key, s)
    requires var ctx := OpenContext(poll, key).value.value; ctx.sourceEnd.ordering == Unordered || s != ctx.next
    ensures poll.source.sent[(key, s)] in ChannelPackets(poll, key).value
  {
  }

  /** Completeness of the whole output: an undelivered packet whose decision is to relay it is among
      the messages, whatever the other channels do. */
  lemma ReadyPacketIsOffered(poll: Poll, key: ChannelKey, s: nat, proof: Height)
    requires key in poll.source.whitelist && SortChannels(poll, poll.source.whitelist).Ok?
    requires OpenContext(poll, key).Ok? && OpenContext(poll, key).value.Some?
    requires (key, s) in poll.source.sent && StillUndelivered(poll, key, s)
    requires var ctx := OpenContext(poll, key).value.value; ctx.sourceEnd.ordering == Unordered || s != ctx.next
    requires DecidePacket(poll, OpenContext(poll, key).value.value, poll.source.sent[(key, s)]) == Ok(Ready(proof))
    ensures RecvPacket(poll.source.sent[(key, s)].packet, proof)
              in SortChannels(poll, poll.source.whitelist).value.ready
  {
    ChannelListed(poll, poll.source.whitelist, key);
    UndeliveredIsListed(poll, key, s);
    var ctx, info := OpenContext(poll, key).value.value, poll.source.sent[(key, s)];
    DecisionIsOffered(poll, poll.source.whitelist, key, ctx, info, Ready(proof));
    assert RecvPacket(info.packet, proof) in PacketMessages(ctx, info, Ready(proof)).ready;
  }

  /** The same for an undelivered packet whose decision is to time it out. */
  lemma ExpiredPacketIsOffered(poll: Poll, key: ChannelKey, s: nat, proof: Height)
    requires key in poll.source.whitelist && SortChannels(poll, poll.source.whitelist).Ok?
    requires OpenContext(poll, key).Ok? && OpenContext(poll, key).value.Some?
    requires (key, s) in poll.source.sent && StillUndelivered(poll, key, s)
    requires var ctx := OpenContext(poll, key).value.value; ctx.sourceEnd.ordering == Unordered || s != ctx.next
    requires DecidePacket(poll, OpenContext(poll, key).value.value, poll.source.sent[(key, s)]) == Ok(Expired(proof))
    ensures var ctx, packet := OpenContext(poll, key).value.value, poll.source.sent[(key, s)].packet;
            TimeoutMessage(ctx.sinkEnd, packet, ctx.next, proof)
              in SortChannels(poll, poll.source.whitelist).value.timeouts
  {
    ChannelListed(poll, poll.source.whitelist, key);
    UndeliveredIsListed(poll, key, s);
    var ctx, info := OpenContext(poll, key).value.value, poll.source.sent[(key, s)];
    DecisionIsOffered(poll, poll.source.whitelist, key, ctx, info, Expired(proof));
    assert TimeoutMessage(ctx.sinkEnd, info.packet, ctx.next, proof)
             in PacketMessages(ctx, info, Expired(proof)).timeouts;
  }

  /** A packet that was ready is ready at every later poll, with the same proof height, unless it was
      delivered or dropped, it expired, the sink's channel end closed, or, on a channel that is not
      unordered, it became the very sequence the sink expects next. */
  lemma ReceiveStaysReady(poll: Poll, later: Poll, key: ChannelKey, s: nat, proof: Height)
    requires Grows(poll, later, key)
    requires (key, s) in poll.source.sent
    requires DecidePacket(poll, OpenContext(poll, key).value.value, poll.source.sent[(key, s)]) == Ok(Ready(proof))
    requires key in later.source.whitelist && SortChannels(later, later.source.whitelist).Ok?
    requires StillUndelivered(later, key, s)
    requires !later.timedOut(poll.source.sent[(key, s)].packet, later.sink.time, later.sink.height)
    requires OpenContext(later, key).value.value.sinkEnd.state != ChanClosed
    requires var ctx := OpenContext(later, key).value.value; ctx.sourceEnd.ordering == Unordered || s != ctx.next
    ensures RecvPacket(poll.source.sent[(key, s)].packet, proof)
              in SortChannels(later, later.source.whitelist).value.ready
  {
    DecisionStays(poll, later, key, poll.source.sent[(key, s)], proof);
    ReadyPacketIsOffered(later, key, s, proof);
  }

  lemma ReadyAckIsOffered(poll: Poll, key: ChannelKey, s: nat, proof: Height)
    requires key in poll.source.whitelist && SortChannels(poll, poll.source.whitelist).Ok?
    requires OpenContext(poll, key).Ok? && OpenContext(poll, key).value.Some?
    requires OpenContext(poll, key).value.value.sourceEnd.state != ChanClosed
    requires UndeliveredAcks(poll.source, poll.sink, key).Ok? && s in UndeliveredAcks(poll.source, poll.sink, key).value
    requires (key, s) in poll.source.received && poll.source.received[(key, s)].ack.Some?
    requires DecideAck(poll, OpenContext(poll, key).value.value, poll.source.received[(key, s)]) == Ok(Ready(proof))
    ensures var info := poll.source.received[(key, s)];
            Acknowledgement(info.packet, info.ack.value, proof) in SortChannels(poll, poll.source.whitelist).value.ready
  {
    var info := poll.source.received[(key, s)];
    ChannelListed(poll, poll.source.whitelist, key);
    assert info in ChannelAcks(poll, key).value;
    AckMessageListed(poll, OpenContext(poll, key).value.value, ChannelAcks(poll, key).value, info, proof);
  }

  /** An acknowledgement that was ready stays ready until it is seen or the source's end closes. */
  lemma AckStaysReady(poll: Poll, later: Poll, key: ChannelKey, s: nat, proof: Height)
    requires Grows(poll, later, key)
    requires (key, s) in poll.source.received && poll.source.received[(key, s)].ack.Some?
    requires DecideAck(poll, OpenContext(poll, key).value.value, poll.source.received[(key, s)]) == Ok(Ready(proof))
    requires key in later.source.whitelist && SortChannels(later, later.source.whitelist).Ok?
    requires UndeliveredAcks(later.source, later.sink, key).Ok?
             && s in UndeliveredAcks(later.source, later.sink, key).value
    requires OpenContext(later, key).value.value.sourceEnd.state != ChanClosed
    ensures var info := poll.source.received[(key, s)];
            Acknowledgement(info.packet, info.ack.value, proof)
              in SortChannels(later, later.source.whitelist).value.ready
  {
    ProvableStable(poll, later, key, poll.source.received[(key, s)].height, proof);
    ReadyAckIsOffered(later, key, s, proof);
  }

  /** On a channel that is not unordered the sorter never offers the one packet the sink accepts, so
      the next expected packet is not delivered through it, however often it is polled. */
  lemma OrderedNextNeverOffered(poll: Poll, key: ChannelKey, s: nat)
    requires OpenContext(poll, key).Ok? && OpenContext(poll, key).value.Some?
    requires OpenContext(poll, key).value.value.sourceEnd.ordering != Unordered
    requires ChannelPackets(poll, key).Ok?
    requires (forall k: nat :: (key, k) in poll.source.sent ==> poll.source.sent[(key, k)].packet.sequence == k)
    ensures forall info :: info in ChannelPackets(poll, key).value ==>
              info.packet.sequence != OpenContext(poll, key).value.value.next
  {
  }
}
