/** Packets and acknowledgements that one chain has recorded and the other has not processed. */
module Undelivered {
  import opened Ibc
  import opened Lists
  import opened Delay

  /** Whether the receiving chain has yet to process sequence `s`: on an unordered channel there is
      no receipt, on any other channel the sequence is not below the next one to be received. */
  predicate Unreceived(sink: ChainView, key: ChannelKey, ordering: Ordering, s: nat) {
    if ordering == Unordered then key in sink.receipts && s !in sink.receipts[key]
    else key in sink.nextReceive && s >= sink.nextReceive[key]
  }

  function WithoutReceipt(sink: ChainView, key: ChannelKey): nat -> bool {
    s => key in sink.receipts && s !in sink.receipts[key]
  }

  function AboveNext(sink: ChainView, key: ChannelKey): nat -> bool {
    s => key in sink.nextReceive && s > sink.nextReceive[key]
  }

  function StillCommitted(sink: ChainView, key: ChannelKey): nat -> bool {
    s => key in sink.commitments && s in sink.commitments[key]
  }

  function Open(sink: ChainView, key: ChannelKey, ordering: Ordering): nat -> bool {
    (s: nat) => Unreceived(sink, key, ordering, s)
  }

  function NotNext(sink: ChainView, key: ChannelKey, ordering: Ordering): nat -> bool {
    s => ordering == Unordered || (key in sink.nextReceive && s != sink.nextReceive[key])
  }

  function UnreceivedPackets(sink: ChainView, key: ChannelKey, seqs: seq<nat>): Result<seq<nat>> {
    if key !in sink.receipts then Err(QueryFailed) else Ok(Keep(seqs, WithoutReceipt(sink, key)))
  }

  /** The channel end of the sender, its commitments, and the receiver's name for the channel. */
  function SenderSide(source: ChainView, key: ChannelKey, recorded: map<ChannelKey, seq<nat>>)
    : Result<(ChannelEnd, seq<nat>, ChannelKey)>
  {
    var end :- source.ChannelEndAt(source.height, key);
    if key !in recorded then Err(QueryFailed)
    else if end.counterpartyChannel.None? then Err(MissingCounterparty)
    else Ok((end, recorded[key], ChannelKey(end.counterpartyChannel.value, end.counterpartyPort)))
  }

  function UndeliveredSequences(source: ChainView, sink: ChainView, key: ChannelKey): Result<seq<nat>> {
    var (end, seqs, there) :- SenderSide(source, key, source.commitments);
    if end.ordering == Unordered then UnreceivedPackets(sink, there, seqs)
    else if there !in sink.nextReceive then Err(QueryFailed)
    else Ok(Keep(seqs, AboveNext(sink, there)))
  }

  /** An acknowledgement has been seen once the chain that sent the packet dropped its commitment. */
  function UndeliveredAcks(source: ChainView, sink: ChainView, key: ChannelKey): Result<seq<nat>> {
    var (end, seqs, there) :- SenderSide(source, key, source.acknowledgements);
    if there !in sink.commitments then Err(QueryFailed)
    else Ok(Keep(seqs, StillCommitted(sink, there)))
  }

  /** Everything committed on the source that the sink has yet to receive, in commitment order. */
  ghost function AllUndelivered(source: ChainView, sink: ChainView, key: ChannelKey): seq<nat>
    requires SenderSide(source, key, source.commitments).Ok?
  {
    var (end, seqs, there) := SenderSide(source, key, source.commitments).value;
    Keep(seqs, Open(sink, there, end.ordering))
  }

  /** The returned list is the undelivered list without the sequence that the sink expects next on a
      channel that is not unordered, so the two agree exactly when that sequence is not committed. */
  lemma UndeliveredSequencesMeaning(source: ChainView, sink: ChainView, key: ChannelKey)
    requires UndeliveredSequences(source, sink, key).Ok?
    ensures SenderSide(source, key, source.commitments).Ok?
    ensures var (end, seqs, there) := SenderSide(source, key, source.commitments).value;
            var listed := UndeliveredSequences(source, sink, key).value;
            && listed == Keep(AllUndelivered(source, sink, key), NotNext(sink, there, end.ordering))
            && (listed == AllUndelivered(source, sink, key) <==>
                  end.ordering == Unordered || sink.nextReceive[there] !in seqs)
  {
    var (end, seqs, there) := SenderSide(source, key, source.commitments).value;
    var listed := UndeliveredSequences(source, sink, key).value;
    var all := AllUndelivered(source, sink, key);
    var both := (s: nat) => Open(sink, there, end.ordering)(s) && NotNext(sink, there, end.ordering)(s);
    KeepTwice(seqs, Open(sink, there, end.ordering), NotNext(sink, there, end.ordering), both);
    KeepSame(seqs, both, if end.ordering == Unordered then WithoutReceipt(sink, there) else AboveNext(sink, there));
    if end.ordering == Unordered {
      KeepSame(seqs, Open(sink, there, end.ordering), WithoutReceipt(sink, there));
    } else if sink.nextReceive[there] in seqs {
      assert sink.nextReceive[there] in all && sink.nextReceive[there] !in listed;
    } else {
      KeepSame(seqs, Open(sink, there, end.ordering), AboveNext(sink, there));
    }
  }

  /** The returned acknowledgements are those written on the source, in order, whose packets are
      still committed on the chain that sent them. */
  lemma UndeliveredAcksMeaning(source: ChainView, sink: ChainView, key: ChannelKey)
    requires UndeliveredAcks(source, sink, key).Ok?
    ensures source.ChannelEndAt(source.height, key).Ok? && key in source.acknowledgements
    ensures var end := source.ChannelEndAt(source.height, key).value;
            && end.counterpartyChannel.Some?
            && var there := ChannelKey(end.counterpartyChannel.value, end.counterpartyPort);
            && there in sink.commitments
            && UndeliveredAcks(source, sink, key).value
                 == Keep(source.acknowledgements[key], StillCommitted(sink, there))
            && forall s :: s in UndeliveredAcks(source, sink, key).value <==>
              s in source.acknowledgements[key] && s in sink.commitments[there]
  {
  }

  /** The source answers for the end of the channel, and it names the counterparty's channel. */
  ghost predicate EndIs(source: ChainView, key: ChannelKey, end: ChannelEnd, there: ChannelKey) {
    && (source.height, key) in source.channels && source.channels[(source.height, key)].end == Some(end)
    && end.counterpartyChannel == Some(there.channel) && end.counterpartyPort == there.port
  }

  ghost predicate CanList(source: ChainView, sink: ChainView, key: ChannelKey, end: ChannelEnd, there: ChannelKey) {
    && EndIs(source, key, end, there) && key in source.commitments
    && if end.ordering == Unordered then there in sink.receipts else there in sink.nextReceive
  }

  ghost predicate CanListAcks(source: ChainView, sink: ChainView, key: ChannelKey, end: ChannelEnd, there: ChannelKey) {
    EndIs(source, key, end, there) && key in source.acknowledgements && there in sink.commitments
  }

  /** Both lists are given exactly when the queries they need are answered, and hold exactly the sequences
      that the answers say. */
  lemma ListedMeaning(source: ChainView, sink: ChainView, key: ChannelKey)
    ensures UndeliveredSequences(source, sink, key).Ok? <==> exists end, there :: CanList(source, sink, key, end, there)
    ensures forall end, there :: CanList(source, sink, key, end, there) ==>
              forall s :: s in UndeliveredSequences(source, sink, key).value <==>
                && s in source.commitments[key]
                && if end.ordering == Unordered then s !in sink.receipts[there] else s > sink.nextReceive[there]
    ensures UndeliveredAcks(source, sink, key).Ok? <==> exists end, there :: CanListAcks(source, sink, key, end, there)
    ensures forall end, there :: CanListAcks(source, sink, key, end, there) ==>
              forall s :: s in UndeliveredAcks(source, sink, key).value <==>
                s in source.acknowledgements[key] && s in sink.commitments[there]
  {
    if source.ChannelEndAt(source.height, key).Ok? {
      var end := source.ChannelEndAt(source.height, key).value;
      if end.counterpartyChannel.Some? {
        var there := ChannelKey(end.counterpartyChannel.value, end.counterpartyPort);
        assert EndIs(source, key, end, there);
        assert UndeliveredSequences(source, sink, key).Ok? <==> CanList(source, sink, key, end, there);
        assert UndeliveredAcks(source, sink, key).Ok? <==> CanListAcks(source, sink, key, end, there);
      }
    }
  }

  lemma {:induction false} KeepTwice(seqs: seq<nat>, p: nat -> bool, q: nat -> bool, both: nat -> bool)
    requires forall s :: both(s) == (p(s) && q(s))
    ensures Keep(Keep(seqs, p), q) == Keep(seqs, both)
  {
    if seqs != [] {
      KeepTwice(Front(seqs), p, q, both);
      if p(Last(seqs)) {
        KeepAppend(Keep(Front(seqs), p), [Last(seqs)], q);
        assert Keep([Last(seqs)], q) == if q(Last(seqs)) then [Last(seqs)] else [];
      }
    }
  }

  /** An ordered channel accepts only the sequence it expects next, and that one is never listed. */
  lemma NothingListedIsReceivable(source: ChainView, sink: ChainView, key: ChannelKey, s: nat)
    requires UndeliveredSequences(source, sink, key).Ok?
    requires SenderSide(source, key, source.commitments).value.0.ordering != Unordered
    ensures s in UndeliveredSequences(source, sink, key).value ==>
              s != sink.nextReceive[SenderSide(source, key, source.commitments).value.2]
  {
  }

  /** The packets of the given sequences for which an event was recorded, in the same order. */
  function Recorded(events: map<(ChannelKey, nat), PacketInfo>, key: ChannelKey, seqs: seq<nat>): (r: seq<PacketInfo>)
    ensures forall p :: p in r <==> exists s :: s in seqs && (key, s) in events && p == events[(key, s)]
  {
    if seqs == [] then []
    else
      assert seqs == Front(seqs) + [Last(seqs)];
      var r := Recorded(events, key, Front(seqs));
      if (key, Last(seqs)) in events then r + [events[(key, Last(seqs))]] else r
  }

  function Known(events: map<(ChannelKey, nat), PacketInfo>, key: ChannelKey): nat -> bool {
    s => (key, s) in events
  }

  /** One record per known sequence, in the order asked, repetitions included. */
  lemma {:induction false} RecordedInOrder(events: map<(ChannelKey, nat), PacketInfo>, key: ChannelKey, seqs: seq<nat>)
    ensures var r, kept := Recorded(events, key, seqs), Keep(seqs, Known(events, key));
            |r| == |kept| && forall i :: 0 <= i < |kept| ==> (key, kept[i]) in events && r[i] == events[(key, kept[i])]
  {
    if seqs != [] {
      RecordedInOrder(events, key, Front(seqs));
    }
  }

  // ---------- the highest start height for timeout proofs ----------

  /** A lower bound for the height at which a packet's timeout can be proved. */
  function TimeoutStart(source: ChainView, sink: ChainView, info: PacketInfo): Option<nat> {
    match source.ClientHeight(source.height, sink.clientId)
    case Err(_) => None
    case Ok(height) =>
      if height.height !in sink.blockTimes then None
      else
        var created := sink.blockTimes[height.height];
        var limit := match info.packet.timeoutHeight { case Never => 0 case At(h) => h.height };
        if info.packet.timeoutTime <= created then Some(limit)
        else
          var approximate := BlockDelay(info.packet.timeoutTime - created, sink.blockTime);
          var next := if approximate == U64_MAX then U64_MAX else approximate + 1;
          Some(if limit < next then limit else next)
  }

  /** The bound is the packet's own timeout height, or one block past the least number of blocks that
      cover the time the packet has left, whichever is lower. */
  lemma TimeoutStartMeaning(source: ChainView, sink: ChainView, info: PacketInfo, k: nat)
    requires sink.blockTime > 0 && k + 1 < U64_MAX
    requires TimeoutStart(source, sink, info).Some?
    ensures source.ClientHeight(source.height, sink.clientId).Ok?
    ensures source.ClientHeight(source.height, sink.clientId).value.height in sink.blockTimes
    ensures var created := sink.blockTimes[source.ClientHeight(source.height, sink.clientId).value.height];
            var limit := match info.packet.timeoutHeight { case Never => 0 case At(h) => h.height };
            k + 1 >= TimeoutStart(source, sink, info).value <==>
              k + 1 >= limit || (info.packet.timeoutTime > created
                                 && created + k * sink.blockTime >= info.packet.timeoutTime)
  {
    var created := sink.blockTimes[source.ClientHeight(source.height, sink.clientId).value.height];
    if info.packet.timeoutTime > created {
      BlockDelayIsLeast(info.packet.timeoutTime - created, sink.blockTime, k);
    }
  }

  /** The undelivered packets of every listed channel, or nothing when a query fails. */
  ghost function Pending(source: ChainView, sink: ChainView, keys: seq<ChannelKey>): Option<seq<PacketInfo>> {
    if keys == [] then Some([])
    else
      var before := Pending(source, sink, Front(keys));
      var seqs := UndeliveredSequences(source, sink, Last(keys));
      if before.None? || seqs.Err? then None
      else Some(before.value + Recorded(source.sent, Last(keys), seqs.value))
  }

  /** A packet is pending exactly when it was sent on a listed channel and its sequence is undelivered
      there; nothing is known when the sequences of some listed channel cannot be read. */
  lemma {:induction false} PendingMeaning(source: ChainView, sink: ChainView, keys: seq<ChannelKey>)
    ensures Pending(source, sink, keys).Some? <==>
              forall key :: key in keys ==> UndeliveredSequences(source, sink, key).Ok?
    ensures Pending(source, sink, keys).Some? ==>
              forall p :: p in Pending(source, sink, keys).value <==>
                exists key, s :: key in keys && IsUndelivered(source, sink, key, s) && source.sent[(key, s)] == p
  {
    if keys != [] {
      var before, key := Front(keys), Last(keys);
      assert keys == before + [key];
      PendingMeaning(source, sink, before);
      if Pending(source, sink, keys).Some? {
        var added := Recorded(source.sent, key, UndeliveredSequences(source, sink, key).value);
        assert forall p :: p in added <==>
                             exists s :: IsUndelivered(source, sink, key, s) && source.sent[(key, s)] == p;
        assert forall p :: p in Pending(source, sink, keys).value <==>
                             p in Pending(source, sink, before).value || p in added;
      }
    }
  }

  ghost predicate IsUndelivered(source: ChainView, sink: ChainView, key: ChannelKey, s: nat) {
    && UndeliveredSequences(source, sink, key).Ok? && s in UndeliveredSequences(source, sink, key).value
    && (key, s) in source.sent
  }

  /** Without a block time, no blocks cover the remaining time: the bound is the timeout height or one,
      whichever is lower. */
  lemma TimeoutStartWithoutBlocks(source: ChainView, sink: ChainView, info: PacketInfo)
    requires sink.blockTime == 0 && TimeoutStart(source, sink, info).Some?
    ensures var created := sink.blockTimes[source.ClientHeight(source.height, sink.clientId).value.height];
            var limit := match info.packet.timeoutHeight { case Never => 0 case At(h) => h.height };
            TimeoutStart(source, sink, info).value ==
              if info.packet.timeoutTime > created && limit > 1 then 1 else limit
  {
  }

  /** A start bound is missing exactly when the client of the sink cannot be read at the source's height,
      or the sink does not know the time of that client's height. */
  lemma TimeoutStartFails(source: ChainView, sink: ChainView, info: PacketInfo)
    ensures TimeoutStart(source, sink, info).None? <==>
              var at := (source.height, sink.clientId);
              || at !in source.clients || source.clients[at].None?
              || source.clients[at].value.height !in sink.blockTimes
  {
  }

  ghost predicate IsGreatestStart(source: ChainView, sink: ChainView, infos: seq<PacketInfo>, m: Option<nat>) {
    && (forall p :: p in infos ==> TimeoutStart(source, sink, p).Some?)
    && (m.None? <==> infos == [])
    && (m.Some? ==>
          && (exists p :: p in infos && TimeoutStart(source, sink, p) == m)
          && (forall p :: p in infos ==> TimeoutStart(source, sink, p).value <= m.value))
  }

  lemma {:induction false} PendingPrefix(source: ChainView, sink: ChainView, keys: seq<ChannelKey>, n: nat)
    requires n < |keys|
    ensures Pending(source, sink, keys).Some? ==>
              && Pending(source, sink, keys[..n]).Some?
              && UndeliveredSequences(source, sink, keys[n]).Ok?
              && forall p ::
                   p in Pending(source, sink, keys[..n]).value +
                        Recorded(source.sent, keys[n], UndeliveredSequences(source, sink, keys[n]).value)
                   ==> p in Pending(source, sink, keys).value
    ensures Front(keys[..n + 1]) == keys[..n]
  {
    if n < |keys| - 1 {
      PendingPrefix(source, sink, Front(keys), n);
      assert Front(keys)[..n] == keys[..n];
    }
  }

  /** The greatest start bound over all pending packets. Nothing is returned when there is no
      pending packet or when any query fails. */
  method MaximumTimeoutHeight(source: ChainView, sink: ChainView) returns (r: Option<nat>)
    ensures r.Some? ==>
              var pending := Pending(source, sink, source.whitelist);
              pending.Some? && IsGreatestStart(source, sink, pending.value, r)
    ensures r.None? ==>
              var pending := Pending(source, sink, source.whitelist);
              pending.Some? ==>
                || pending.value == []
                || exists p :: p in pending.value && TimeoutStart(source, sink, p).None?
  {
    r := None;
    ghost var seen: seq<PacketInfo> := [];
    for i := 0 to |source.whitelist|
      invariant Pending(source, sink, source.whitelist[..i]) == Some(seen)
      invariant IsGreatestStart(source, sink, seen, r)
    {
      PendingPrefix(source, sink, source.whitelist, i);
      var key := source.whitelist[i];
      var seqs := UndeliveredSequences(source, sink, key);
      if seqs.Err? {
        return None;
      }
      var failed;
      ghost var before := seen;
      failed, r := RaiseStart(source, sink, before, Recorded(source.sent, key, seqs.value), r);
      if failed {
        return None;
      }
      seen := before + Recorded(source.sent, key, seqs.value);
    }
    assert source.whitelist[..|source.whitelist|] == source.whitelist;
  }

  /** The inner loop: raises `highest` over the packets of one channel. */
  method RaiseStart(source: ChainView, sink: ChainView, ghost seen: seq<PacketInfo>, infos: seq<PacketInfo>,
                    highest: Option<nat>)
    returns (failed: bool, r: Option<nat>)
    requires IsGreatestStart(source, sink, seen, highest)
    ensures failed ==> exists p :: p in infos && TimeoutStart(source, sink, p).None?
    ensures !failed ==> IsGreatestStart(source, sink, seen + infos, r)
  {
    r := highest;
    assert seen + infos[..0] == seen;
    for j := 0 to |infos|
      invariant IsGreatestStart(source, sink, seen + infos[..j], r)
    {
      var start := TimeoutStart(source, sink, infos[j]);
      if start.None? {
        return true, None;
      }
      ghost var before := r;
      r := if r.None? || r.value < start.value then start else r;
      assert (seen + infos[..j]) + [infos[j]] == seen + infos[..j + 1];
      GreatestStartAppend(source, sink, seen + infos[..j], infos[j], before, r);
    }
    assert infos[..|infos|] == infos;
    failed := false;
  }

  lemma GreatestStartAppend(source: ChainView, sink: ChainView, seen: seq<PacketInfo>, info: PacketInfo,
                            before: Option<nat>, m: Option<nat>)
    requires TimeoutStart(source, sink, info).Some?
    requires IsGreatestStart(source, sink, seen, before)
    requires m == if before.None? || before.value < TimeoutStart(source, sink, info).value
                  then TimeoutStart(source, sink, info) else before
    ensures IsGreatestStart(source, sink, seen + [info], m)
  {
  }
}
