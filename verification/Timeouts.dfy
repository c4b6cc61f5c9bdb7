/** Timeouts: the height at which a packet's absence can be proved, and the message that proves it. */
module Timeouts {
  import opened Ibc
  import opened Delay
  import opened ProofSearch

  /** The estimated height on the counterparty at which the packet's timestamp is reached. */
  function EstimatedHeight(clientHeight: Height, created: nat, packet: Packet, blockTime: nat): nat
    requires created <= packet.timeoutTime
  {
    var blocks := BlockDelay(packet.timeoutTime - created, blockTime);
    clientHeight.height + if blocks == 0 then 0 else blocks - 1
  }

  /** The height from which a timeout proof is searched: the later of the packet's timeout height
      and the estimated height. Nothing is returned when the packet has no timeout height or a query
      fails; a timestamp below the creation time makes the subtraction of the two underflow. */
  function SearchStart(source: ChainView, sink: ChainView, packet: Packet,
                       creationHeight: nat): Result<Option<Height>> {
    if packet.timeoutHeight.Never? then Ok(None)
    else if creationHeight == 0 then Err(Panic)
    else
      match source.ClientHeight(Height(source.height.number, creationHeight), sink.clientId)
      case Err(e) => if e == NotFound then Err(Panic) else Ok(None)
      case Ok(clientHeight) =>
        if clientHeight.height !in sink.blockTimes then Ok(None)
        else
          var created := sink.blockTimes[clientHeight.height];
          if packet.timeoutTime < created then Err(Panic)
          else
            var estimate := EstimatedHeight(clientHeight, created, packet, sink.blockTime);
            var limit := packet.timeoutHeight.height;
            Ok(Some(if estimate < limit.height then limit else Height(limit.number, estimate)))
  }

  /** `k` blocks of the sink, from the time of creation on, end before the timeout, and one more block does
      not; up to the 64-bit limit of the block count. Without block time or remaining time, `k` is zero. */
  ghost predicate IsEstimate(created: nat, timeoutTime: nat, blockTime: nat, k: nat) {
    if blockTime == 0 || timeoutTime == created then k == 0
    else
      && k < U64_MAX && created + k * blockTime < timeoutTime
      && (k == U64_MAX - 1 || timeoutTime <= created + (k + 1) * blockTime)
  }

  /** The client height on the source when the packet was created, and the sink's time at that height. */
  ghost predicate CreatedAt(source: ChainView, sink: ChainView, creationHeight: nat, client: Height, created: nat) {
    && creationHeight > 0
    && var at: Height := Height(source.height.number, creationHeight);
    && (at, sink.clientId) in source.clients && source.clients[(at, sink.clientId)] == Some(client)
    && client.height in sink.blockTimes && sink.blockTimes[client.height] == created
  }

  /** The search starts at the packet's timeout height, or at the estimated height if that is later; in
      the revision of the timeout height. */
  ghost predicate StartsAt(source: ChainView, sink: ChainView, packet: Packet, creationHeight: nat, start: Height) {
    && packet.timeoutHeight.At?
    && exists client: Height, created: nat, k: nat ::
         && CreatedAt(source, sink, creationHeight, client, created) && created <= packet.timeoutTime
         && IsEstimate(created, packet.timeoutTime, sink.blockTime, k)
         && IsLater(packet.timeoutHeight.height, client, k, start)
  }

  ghost predicate IsLater(limit: Height, client: Height, k: nat, start: Height) {
    && start.number == limit.number
    && start.height >= limit.height && start.height >= client.height + k
    && (start.height == limit.height || start.height == client.height + k)
  }

  lemma SearchStartMeaning(source: ChainView, sink: ChainView, packet: Packet, creationHeight: nat, start: Height)
    ensures SearchStart(source, sink, packet, creationHeight) == Ok(Some(start)) <==>
              StartsAt(source, sink, packet, creationHeight, start)
  {
    if StartsAt(source, sink, packet, creationHeight, start) {
      var client: Height, created: nat, k: nat :|
        && CreatedAt(source, sink, creationHeight, client, created) && created <= packet.timeoutTime
        && IsEstimate(created, packet.timeoutTime, sink.blockTime, k)
        && IsLater(packet.timeoutHeight.height, client, k, start);
      EstimateIs(client, created, packet, sink.blockTime, k);
    }
    if SearchStart(source, sink, packet, creationHeight) == Ok(Some(start)) {
      var at: Height := Height(source.height.number, creationHeight);
      var client: Height := source.clients[(at, sink.clientId)].value;
      var created := sink.blockTimes[client.height];
      var k: nat := EstimatedHeight(client, created, packet, sink.blockTime) - client.height;
      EstimateIs(client, created, packet, sink.blockTime, k);
      assert CreatedAt(source, sink, creationHeight, client, created);
      assert IsLater(packet.timeoutHeight.height, client, k, start);
    }
  }

  lemma EstimateIs(client: Height, created: nat, packet: Packet, blockTime: nat, k: nat)
    requires created <= packet.timeoutTime
    ensures IsEstimate(created, packet.timeoutTime, blockTime, k) <==>
              k == EstimatedHeight(client, created, packet, blockTime) - client.height
  {
    var period := packet.timeoutTime - created;
    if blockTime > 0 {
      BlockDelayIsLeast(period, blockTime, 0);
      assert 0 * blockTime == 0;
      if k < U64_MAX {
        BlockDelayIsLeast(period, blockTime, k);
      }
      if k + 1 < U64_MAX {
        BlockDelayIsLeast(period, blockTime, k + 1);
      }
    }
  }

  /** No search is made for a packet without a timeout height, or when the client of that time cannot be
      read or the sink does not know its block. The relayer aborts when the creation height is zero, when
      there was no such client, and when the timeout timestamp lies before the creation time. */
  lemma SearchStartFails(source: ChainView, sink: ChainView, packet: Packet, creationHeight: nat)
    ensures var at := RawHeight.Height(source.height.number, creationHeight);
            var r := SearchStart(source, sink, packet, creationHeight);
            && (r == Ok(None) <==>
                  || packet.timeoutHeight.Never?
                  || (creationHeight > 0 && (at, sink.clientId) !in source.clients)
                  || exists client: Height ::
                       KnownClient(source, sink, creationHeight, client) && client.height !in sink.blockTimes)
            && (r.Err? ==> r.error == Panic)
            && (r.Err? <==>
                  && packet.timeoutHeight.At?
                  && (|| creationHeight == 0
                      || ((at, sink.clientId) in source.clients && source.clients[(at, sink.clientId)].None?)
                      || exists client: Height, created ::
                           CreatedAt(source, sink, creationHeight, client, created) && packet.timeoutTime < created))
  {
    if packet.timeoutHeight.At? && creationHeight > 0 {
      var at: Height := Height(source.height.number, creationHeight);
      if (at, sink.clientId) in source.clients && source.clients[(at, sink.clientId)].Some? {
        var client := source.clients[(at, sink.clientId)].value;
        assert KnownClient(source, sink, creationHeight, client);
        if client.height in sink.blockTimes {
          assert CreatedAt(source, sink, creationHeight, client, sink.blockTimes[client.height]);
        }
      }
    }
  }

  ghost predicate KnownClient(source: ChainView, sink: ChainView, creationHeight: nat, client: Height) {
    && creationHeight > 0
    && var at: Height := Height(source.height.number, creationHeight);
    (at, sink.clientId) in source.clients && source.clients[(at, sink.clientId)] == Some(client)
  }

  function TimeoutProofHeight(source: ChainView, sink: ChainView, latest: Height, packet: Packet, creationHeight: nat)
    : Result<Option<Height>>
  {
    var start :- SearchStart(source, sink, packet, creationHeight);
    if start.None? then Ok(None)
    else Ok(Suitable(source.ConsensusOf(sink.clientId, start.value.number), start.value, Some(packet.timeoutTime),
                     latest))
  }

  /** A height that is returned witnesses expiry by both criteria. */
  lemma TimeoutProofWitnessesExpiry(source: ChainView, sink: ChainView, latest: Height, packet: Packet,
                                    creationHeight: nat)
    requires TimeoutProofHeight(source, sink, latest, packet, creationHeight).Ok?
    requires TimeoutProofHeight(source, sink, latest, packet, creationHeight).value.Some?
    ensures var proof := TimeoutProofHeight(source, sink, latest, packet, creationHeight).value.value;
            && packet.timeoutHeight.At?
            && proof.number == packet.timeoutHeight.height.number
            && packet.timeoutHeight.height.height <= proof.height <= latest.height
            && SearchStart(source, sink, packet, creationHeight).value.value.height <= proof.height
            && (sink.clientId, proof) in source.consensus
            && source.consensus[(sink.clientId, proof)].Stored?
            && source.consensus[(sink.clientId, proof)].time >= packet.timeoutTime
  {
  }

  // ---------- the upper bound of the search ----------

  /** The source's client of the sink holds every height from `start` up to `own`, in time order, and
      none above. The search is given some other bound `latest`. */
  ghost predicate Holds(source: ChainView, sink: ChainView, start: Height, own: nat, latest: nat) {
    var view := source.ConsensusOf(sink.clientId, start.number);
    StoredUpTo(view, start.height, own, latest) && Chronological(view, start.height, own)
  }

  /** `first` is the lowest height from the search start on at which that client shows the expiry. */
  ghost predicate FirstExpiry(source: ChainView, sink: ChainView, packet: Packet, start: Height, own: nat, first: nat) {
    IsFirstReaching(source.ConsensusOf(sink.clientId, start.number), start.height, own, packet.timeoutTime, first)
  }

  /** Which proof height is found under any bound: the first height that shows the expiry, exactly when
      the search looks at a height between it and the client's own one; never when the search would
      start above the bound. */
  lemma ProofHeightUnderBound(source: ChainView, sink: ChainView, latest: Height, packet: Packet, creationHeight: nat,
                              start: Height, own: nat, first: nat)
    requires SearchStart(source, sink, packet, creationHeight) == Ok(Some(start))
    requires Holds(source, sink, start, own, latest.height) && FirstExpiry(source, sink, packet, start, own, first)
    ensures TimeoutProofHeight(source, sink, latest, packet, creationHeight) ==
              if start.height <= latest.height && Hits(latest.height - start.height + 1, latest.height, first, own)
              then Ok(Some(Height(start.number, first))) else Ok(None)
  {
    if start.height <= latest.height {
      TimedSearchExact(source.ConsensusOf(sink.clientId, start.number), start.height, own, latest.height,
                       packet.timeoutTime);
    }
  }

  /** A bound at or below the client's own height loses exactly the packets whose expiry shows first
      above the bound, or at it when the halving does not end there. */
  lemma LowBoundLoses(source: ChainView, sink: ChainView, latest: Height, packet: Packet, creationHeight: nat,
                      start: Height, own: nat, first: nat)
    requires SearchStart(source, sink, packet, creationHeight) == Ok(Some(start)) && latest.height <= own
    requires Holds(source, sink, start, own, latest.height) && FirstExpiry(source, sink, packet, start, own, first)
    ensures TimeoutProofHeight(source, sink, latest, packet, creationHeight) == Ok(None) <==>
              first > latest.height || (first == latest.height && !EndsAtLast(latest.height - start.height + 1))
  {
    ProofHeightUnderBound(source, sink, latest, packet, creationHeight, start, own, first);
    if first <= latest.height {
      HitsBelowLatest(latest.height - start.height + 1, latest.height, first, own);
    }
  }

  /** A bound so high that the first midpoint lies above the client's own height loses every packet. */
  lemma HighBoundLosesAll(source: ChainView, sink: ChainView, latest: Height, packet: Packet, creationHeight: nat,
                          start: Height, own: nat, first: nat)
    requires SearchStart(source, sink, packet, creationHeight) == Ok(Some(start)) && start.height <= latest.height
    requires own < latest.height - (latest.height - start.height + 1) / 2
    requires Holds(source, sink, start, own, latest.height) && FirstExpiry(source, sink, packet, start, own, first)
    ensures TimeoutProofHeight(source, sink, latest, packet, creationHeight) == Ok(None)
  {
    ProofHeightUnderBound(source, sink, latest, packet, creationHeight, start, own, first);
    HitsAbove(latest.height - start.height + 1, latest.height, first, own);
  }

  /** A client at height 10 shows the expiry at height 7. Bounded by 4 or by 40, the search finds
      nothing; bounded by the client's own height it finds 7. */
  lemma BoundsThatLose(source: ChainView, sink: ChainView, packet: Packet, creationHeight: nat)
    requires SearchStart(source, sink, packet, creationHeight) == Ok(Some(Height(1, 3)))
    requires Holds(source, sink, Height(1, 3), 10, 40) && FirstExpiry(source, sink, packet, Height(1, 3), 10, 7)
    ensures TimeoutProofHeight(source, sink, Height(1, 4), packet, creationHeight) == Ok(None)
    ensures TimeoutProofHeight(source, sink, Height(1, 10), packet, creationHeight) == Ok(Some(Height(1, 7)))
    ensures TimeoutProofHeight(source, sink, Height(1, 40), packet, creationHeight) == Ok(None)
  {
    LowBoundLoses(source, sink, Height(1, 4), packet, creationHeight, Height(1, 3), 10, 7);
    LowBoundLoses(source, sink, Height(1, 10), packet, creationHeight, Height(1, 3), 10, 7);
    ProofHeightUnderBound(source, sink, Height(1, 10), packet, creationHeight, Height(1, 3), 10, 7);
    HighBoundLosesAll(source, sink, Height(1, 40), packet, creationHeight, Height(1, 3), 10, 7);
  }

  /** When the client and block queries succeed, the search aborts exactly for the packets whose
      timeout timestamp lies before the creation time, those without a timestamp among them. */
  lemma TimeoutSearchAborts(source: ChainView, sink: ChainView, latest: Height, packet: Packet, creationHeight: nat)
    requires packet.timeoutHeight.At? && creationHeight > 0
    requires source.ClientHeight(Height(source.height.number, creationHeight), sink.clientId).Ok?
    requires source.ClientHeight(Height(source.height.number, creationHeight), sink.clientId).value.height
               in sink.blockTimes
    ensures var created := sink.blockTimes[source.ClientHeight(Height(source.height.number, creationHeight),
                                                               sink.clientId).value.height];
            && (TimeoutProofHeight(source, sink, latest, packet, creationHeight).Err? <==> packet.timeoutTime < created)
            && (packet.timeoutTime == 0 < created ==>
                  TimeoutProofHeight(source, sink, latest, packet, creationHeight) == Err(Panic))
  {
  }

  /** The estimate is the last height whose expected time lies before the timeout: one block less than
      the blocks that cover the remaining time. */
  lemma EstimateIsLastBefore(clientHeight: Height, created: nat, packet: Packet, blockTime: nat)
    requires created < packet.timeoutTime && blockTime > 0
    requires BlockDelay(packet.timeoutTime - created, blockTime) < U64_MAX
    ensures var ahead := EstimatedHeight(clientHeight, created, packet, blockTime) - clientHeight.height;
            ahead >= 0 && created + ahead * blockTime < packet.timeoutTime <= created + (ahead + 1) * blockTime
  {
    var period := packet.timeoutTime - created;
    var blocks := BlockDelay(period, blockTime);
    BlockDelayIsLeast(period, blockTime, 0);
    assert 0 * blockTime == 0;
    assert blocks > 0;
    BlockDelayIsLeast(period, blockTime, blocks);
    BlockDelayIsLeast(period, blockTime, blocks - 1);
  }

  /** The kind of message and the key whose absence it proves depend on the receiver's channel end. */
  function TimeoutMessage(sinkEnd: ChannelEnd, packet: Packet, nextSequence: nat, proof: Height): Msg {
    var absent := if sinkEnd.ordering == Ordered then NextSequenceKey(packet.destination)
                  else ReceiptKey(packet.destination, packet.sequence);
    if sinkEnd.state == ChanClosed then TimeoutOnClose(packet, nextSequence, absent, proof)
    else Timeout(packet, nextSequence, absent, proof)
  }

  /** The store entry whose absence the sending chain checks, by the ordering of its own channel end. */
  function SenderChecks(sourceEnd: ChannelEnd, packet: Packet): AbsenceKey {
    if sourceEnd.ordering == Ordered then NextSequenceKey(packet.destination)
    else ReceiptKey(packet.destination, packet.sequence)
  }

  /** The message is built from the receiver's end. It proves what the sender checks exactly when
      the two ends agree on whether the channel is ordered. */
  lemma TimeoutProvesWhatSenderChecks(sourceEnd: ChannelEnd, sinkEnd: ChannelEnd, packet: Packet,
                                      nextSequence: nat, proof: Height)
    ensures var m := TimeoutMessage(sinkEnd, packet, nextSequence, proof);
            && (m.Timeout? || m.TimeoutOnClose?) && (m.TimeoutOnClose? <==> sinkEnd.state == ChanClosed)
            && m.packet == packet && m.nextSequence == nextSequence && m.proof == proof
            && (m.absent == SenderChecks(sourceEnd, packet) <==>
                  (sourceEnd.ordering == Ordered <==> sinkEnd.ordering == Ordered))
  {
  }
}
