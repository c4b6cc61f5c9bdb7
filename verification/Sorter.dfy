/** The packet sorter: which recorded packets and acknowledgements can be relayed now, and which
    packets have to be timed out on the chain that sent them. */
module Sorter {
  import opened Ibc
  import opened Lists
  import opened Delay
  import opened ProofSearch
  import opened Undelivered
  import opened Timeouts

  /** One poll of both chains. `timedOut` decides whether a packet has expired at a time and height
      of the receiving chain; `maxTime` is the last representable time. */
  datatype Poll = Poll(source: ChainView, sink: ChainView, timedOut: (Packet, nat, Height) -> bool, maxTime: nat)

  /** What the sorter needs to know about one channel. `latest` is the height of the source's client
      on the sink, which the source code uses for both directions. */
  datatype Context = Context(sourceEnd: ChannelEnd, delay: nat, there: ChannelKey, sinkEnd: ChannelEnd, next: nat,
                             latest: Height)

  datatype Decision = Skip | Ready(proof: Height) | Expired(proof: Height)

  datatype Sorted = Sorted(ready: seq<Msg>, timeouts: seq<Msg>) {
    function Then(later: Sorted): Sorted {
      Sorted(ready + later.ready, timeouts + later.timeouts)
    }
  }

  /** Nothing when the channel is neither open nor closed. */
  function OpenContext(poll: Poll, key: ChannelKey): Result<Option<Context>> {
    var source, sink := poll.source, poll.sink;
    var end :- source.ChannelEndAt(source.height, key);
    if end.state != ChanOpen && end.state != ChanClosed then Ok(None)
    else if end.hops == [] then Err(MissingConnection)
    else
      var connection :- source.ConnectionEndAt(source.height, end.hops[0]);
      if end.counterpartyChannel.None? then Err(MissingCounterparty)
      else
        var there := ChannelKey(end.counterpartyChannel.value, end.counterpartyPort);
        var sinkEnd :- sink.ChannelEndAt(sink.height, there);
        if there !in sink.nextReceive then Err(QueryFailed)
        else
          var latest :- sink.ClientHeight(sink.height, source.clientId);
          Ok(Some(Context(end, connection.delay, there, sinkEnd, sink.nextReceive[there], latest)))
  }

  /** The first height from `recorded` on at which the sink can check a proof, once the delay since
      that client update has passed. */
  function ProvableOnSink(poll: Poll, ctx: Context, recorded: nat): Result<Decision> {
    if recorded > ctx.latest.height then Ok(Skip)
    else if recorded == 0 then Err(Panic)
    else
      match Suitable(poll.sink.ConsensusOf(poll.source.clientId, ctx.latest.number),
                     Height(ctx.latest.number, recorded), None, ctx.latest)
      case None => Ok(Skip)
      case Some(proof) =>
        var passed :- VerifyDelayPassed(poll.maxTime, poll.sink, poll.source.clientId, ctx.delay, proof);
        Ok(if passed then Ready(proof) else Skip)
  }

  function DecidePacket(poll: Poll, ctx: Context, info: PacketInfo): Result<Decision> {
    if poll.timedOut(info.packet, poll.sink.time, poll.sink.height) then
      var proof :- TimeoutProofHeight(poll.source, poll.sink, ctx.latest, info.packet, info.height);
      if proof.None? then Ok(Skip)
      else
        var passed :- VerifyDelayPassed(poll.maxTime, poll.source, poll.sink.clientId, ctx.delay, proof.value);
        Ok(if passed then Expired(proof.value) else Skip)
    else if ctx.sinkEnd.state == ChanClosed then Ok(Skip)
    else ProvableOnSink(poll, ctx, info.height)
  }

  function DecideAck(poll: Poll, ctx: Context, info: PacketInfo): Result<Decision> {
    if info.ack.None? then Ok(Skip) else ProvableOnSink(poll, ctx, info.height)
  }

  // ---------- the sorted messages, channel by channel ----------

  function PacketMessages(ctx: Context, info: PacketInfo, decision: Decision): Sorted {
    match decision
    case Skip => Sorted([], [])
    case Ready(proof) => Sorted([RecvPacket(info.packet, proof)], [])
    case Expired(proof) => Sorted([], [TimeoutMessage(ctx.sinkEnd, info.packet, ctx.next, proof)])
  }

  function AckMessages(info: PacketInfo, decision: Decision): seq<Msg> {
    if decision.Ready? && info.ack.Some? then [Acknowledgement(info.packet, info.ack.value, decision.proof)] else []
  }

  function SortPackets(poll: Poll, ctx: Context, infos: seq<PacketInfo>): Result<Sorted> {
    if infos == [] then Ok(Sorted([], []))
    else
      var before :- SortPackets(poll, ctx, Front(infos));
      var decision :- DecidePacket(poll, ctx, Last(infos));
      Ok(before.Then(PacketMessages(ctx, Last(infos), decision)))
  }

  function SortAcks(poll: Poll, ctx: Context, infos: seq<PacketInfo>): Result<seq<Msg>> {
    if infos == [] then Ok([])
    else
      var before :- SortAcks(poll, ctx, Front(infos));
      var decision :- DecideAck(poll, ctx, Last(infos));
      Ok(before + AckMessages(Last(infos), decision))
  }

  function ChannelPackets(poll: Poll, key: ChannelKey): Result<seq<PacketInfo>> {
    var seqs :- UndeliveredSequences(poll.source, poll.sink, key);
    Ok(Recorded(poll.source.sent, key, seqs))
  }

  function ChannelAcks(poll: Poll, key: ChannelKey): Result<seq<PacketInfo>> {
    var seqs :- UndeliveredAcks(poll.source, poll.sink, key);
    Ok(Recorded(poll.source.received, key, seqs))
  }

  function SortChannel(poll: Poll, key: ChannelKey): Result<Sorted> {
    var ctx :- OpenContext(poll, key);
    if ctx.None? then Ok(Sorted([], []))
    else
      var infos :- ChannelPackets(poll, key);
      var packets :- SortPackets(poll, ctx.value, infos);
      var ackInfos :- ChannelAcks(poll, key);
      if ctx.value.sourceEnd.state == ChanClosed then Ok(packets)
      else
        var acks :- SortAcks(poll, ctx.value, ackInfos);
        Ok(packets.Then(Sorted(acks, [])))
  }

  function SortChannels(poll: Poll, keys: seq<ChannelKey>): Result<Sorted> {
    if keys == [] then Ok(Sorted([], []))
    else
      var before :- SortChannels(poll, Front(keys));
      var sorted :- SortChannel(poll, Last(keys));
      Ok(before.Then(sorted))
  }

  // ---------- the loops ----------

  lemma {:induction false} SortPacketsPrefix(poll: Poll, ctx: Context, infos: seq<PacketInfo>, n: nat)
    requires n <= |infos|
    ensures SortPackets(poll, ctx, infos[..n]).Err? ==>
                  SortPackets(poll, ctx, infos) == SortPackets(poll, ctx, infos[..n])
  {
    if n < |infos| {
      SortPacketsPrefix(poll, ctx, Front(infos), n);
      assert Front(infos)[..n] == infos[..n];
    } else {
      assert infos[..n] == infos;
    }
  }

  lemma {:induction false} SortAcksPrefix(poll: Poll, ctx: Context, infos: seq<PacketInfo>, n: nat)
    requires n <= |infos|
    ensures SortAcks(poll, ctx, infos[..n]).Err? ==> SortAcks(poll, ctx, infos) == SortAcks(poll, ctx, infos[..n])
  {
    if n < |infos| {
      SortAcksPrefix(poll, ctx, Front(infos), n);
      assert Front(infos)[..n] == infos[..n];
    } else {
      assert infos[..n] == infos;
    }
  }

  lemma {:induction false} SortChannelsPrefix(poll: Poll, keys: seq<ChannelKey>, n: nat)
    requires n <= |keys|
    ensures SortChannels(poll, keys[..n]).Err? ==> SortChannels(poll, keys) == SortChannels(poll, keys[..n])
  {
    if n < |keys| {
      SortChannelsPrefix(poll, Front(keys), n);
      assert Front(keys)[..n] == keys[..n];
    } else {
      assert keys[..n] == keys;
    }
  }

  /** The inner loop over the undelivered packets of one channel. */
  method SortPacketLoop(poll: Poll, ctx: Context, infos: seq<PacketInfo>) returns (r: Result<Sorted>)
    ensures r == SortPackets(poll, ctx, infos)
  {
    var messages, timeouts := [], [];
    for i := 0 to |infos|
      invariant SortPackets(poll, ctx, infos[..i]) == Ok(Sorted(messages, timeouts))
    {
      assert Front(infos[..i + 1]) == infos[..i];
      SortPacketsPrefix(poll, ctx, infos, i + 1);
      var info := infos[i];
      var decision := DecidePacket(poll, ctx, info);
      if decision.Err? {
        return Err(decision.error);
      }
      assert messages + [] == messages && timeouts + [] == timeouts;
      if decision.value.Skip? {
        continue;
      }
      if decision.value.Expired? {
        timeouts := timeouts + [TimeoutMessage(ctx.sinkEnd, info.packet, ctx.next, decision.value.proof)];
        continue;
      }
      messages := messages + [RecvPacket(info.packet, decision.value.proof)];
    }
    assert infos[..|infos|] == infos;
    return Ok(Sorted(messages, timeouts));
  }

  /** The inner loop over the acknowledgements of one channel. */
  method SortAckLoop(poll: Poll, ctx: Context, infos: seq<PacketInfo>) returns (r: Result<seq<Msg>>)
    ensures r == SortAcks(poll, ctx, infos)
  {
    var messages := [];
    for i := 0 to |infos|
      invariant SortAcks(poll, ctx, infos[..i]) == Ok(messages)
    {
      assert Front(infos[..i + 1]) == infos[..i];
      SortAcksPrefix(poll, ctx, infos, i + 1);
      var info := infos[i];
      assert messages + [] == messages;
      if info.ack.None? {
        continue;
      }
      var decision := ProvableOnSink(poll, ctx, info.height);
      if decision.Err? {
        return Err(decision.error);
      }
      if !decision.value.Ready? {
        continue;
      }
      messages := messages + [Acknowledgement(info.packet, info.ack.value, decision.value.proof)];
    }
    assert infos[..|infos|] == infos;
    return Ok(messages);
  }

  /** The body of the outer loop: one whitelisted channel. */
  method SortOneChannel(poll: Poll, key: ChannelKey) returns (r: Result<Sorted>)
    ensures r == SortChannel(poll, key)
  {
    var ctx := OpenContext(poll, key);
    if ctx.Err? {
      return Err(ctx.error);
    }
    if ctx.value.None? {
      return Ok(Sorted([], []));
    }
    var infos := ChannelPackets(poll, key);
    if infos.Err? {
      return Err(infos.error);
    }
    var packets := SortPacketLoop(poll, ctx.value.value, infos.value);
    if packets.Err? {
      return Err(packets.error);
    }
    var ackInfos := ChannelAcks(poll, key);
    if ackInfos.Err? {
      return Err(ackInfos.error);
    }
    if ctx.value.value.sourceEnd.state == ChanClosed {
      return packets;
    }
    var acks := SortAckLoop(poll, ctx.value.value, ackInfos.value);
    if acks.Err? {
      return Err(acks.error);
    }
    return Ok(packets.value.Then(Sorted(acks.value, [])));
  }

  method QueryReadyAndTimedOutPackets(poll: Poll) returns (r: Result<Sorted>)
    ensures r == SortChannels(poll, poll.source.whitelist)
  {
    var keys := poll.source.whitelist;
    var messages, timeouts := [], [];
    for i := 0 to |keys|
      invariant SortChannels(poll, keys[..i]) == Ok(Sorted(messages, timeouts))
    {
      assert Front(keys[..i + 1]) == keys[..i];
      SortChannelsPrefix(poll, keys, i + 1);
      var sorted := SortOneChannel(poll, keys[i]);
      if sorted.Err? {
        return Err(sorted.error);
      }
      messages, timeouts := messages + sorted.value.ready, timeouts + sorted.value.timeouts;
    }
    assert keys[..|keys|] == keys;
    return Ok(Sorted(messages, timeouts));
  }
}
