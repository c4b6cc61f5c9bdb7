/** One step of the relayer: scan the source's new blocks, translate their events, wait until the
    proofs can be checked, fetch a newer header, and send it with the messages or skip. */
module Relay {
  import opened Ibc
  import opened Lists
  import opened Events
  import opened Queue

  datatype UpdateType = Mandatory | Optional {
    predicate IsOptional() {
      Optional?
    }
  }

  /** A change of validators makes no difference. */
  function HeaderUpdateType(validatorsUnchanged: bool): UpdateType {
    if validatorsUnchanged then Optional else Optional
  }

  /** The raw events of a block, transaction by transaction; nothing stands for an event that is not
      an IBC event, and a block may come without transaction results. */
  type Block = Option<seq<seq<Option<Event>>>>

  /** The blocks that a node serves; asking for any other block fails. */
  type History = map<nat, Block>

  /** What a query for the newest state reads: the latest height, then the highest header. */
  datatype Reading = Reading(latest: Height, header: Height, validatorsUnchanged: bool)

  datatype Latest = Latest(events: seq<EventAt>, header: Height, update: UpdateType)

  // ---------- scanning ----------

  function TxEvents(at: Height, tx: seq<Option<Event>>): seq<EventAt> {
    if tx == [] then []
    else if Last(tx).None? then TxEvents(at, Front(tx))
    else TxEvents(at, Front(tx)) + [EventAt(Last(tx).value, at)]
  }

  function TxsEvents(at: Height, txs: seq<seq<Option<Event>>>): seq<EventAt> {
    if txs == [] then [] else TxsEvents(at, Front(txs)) + TxEvents(at, Last(txs))
  }

  function BlockEvents(at: Height, block: Block): seq<EventAt> {
    if block.None? then [] else TxsEvents(at, block.value)
  }

  /** The events of the blocks `lo` to `hi`; a block that is not known counts as empty. */
  ghost function EventsIn(history: History, number: nat, lo: nat, hi: nat): seq<EventAt>
    requires lo > 0
    decreases hi
  {
    if lo > hi then []
    else
      EventsIn(history, number, lo, hi - 1) +
      if hi in history then BlockEvents(Height(number, hi), history[hi]) else []
  }

  // ---------- what a scan holds, block by block ----------

  /** Where an event stands: its block, the transaction in the block, and the event in the transaction. */
  datatype Place = Place(block: nat, tx: nat, index: nat) {
    ghost predicate Before(other: Place) {
      || block < other.block
      || (block == other.block && tx < other.tx)
      || (block == other.block && tx == other.tx && index < other.index)
    }
  }

  function EventOf(txs: seq<seq<Option<Event>>>, tx: nat, index: nat): Option<Event> {
    if tx < |txs| && index < |txs[tx]| then txs[tx][index] else None
  }

  /** The IBC event at a place, if there is one. */
  function EventAtPlace(history: History, p: Place): Option<Event> {
    if p.block in history && history[p.block].Some? then EventOf(history[p.block].value, p.tx, p.index) else None
  }

  ghost predicate InSequence(places: seq<Place>) {
    forall i, j :: 0 <= i < j < |places| ==> places[i].Before(places[j])
  }

  /** The events stand at these places, one each, in the order of blocks, transactions and events, and no
      other place of the blocks above `after` and up to `hi` has an IBC event. */
  ghost predicate Located(history: History, number: nat, after: nat, hi: nat, events: seq<EventAt>,
                          places: seq<Place>) {
    && StandAt(history, number, events, places) && InSequence(places)
    && (forall p :: p in places <==> after < p.block <= hi && EventAtPlace(history, p).Some?)
  }

  ghost predicate StandAt(history: History, number: nat, events: seq<EventAt>, places: seq<Place>) {
    && |places| == |events|
    && forall k :: 0 <= k < |places| ==>
         && EventAtPlace(history, places[k]) == Some(events[k].event)
         && events[k].height == RawHeight.Height(number, places[k].block)
  }

  lemma JoinStandAt(history: History, number: nat, a: seq<EventAt>, ps: seq<Place>, b: seq<EventAt>, qs: seq<Place>)
    requires StandAt(history, number, a, ps) && StandAt(history, number, b, qs)
    ensures StandAt(history, number, a + b, ps + qs)
  {
  }

  lemma JoinSequence(a: seq<Place>, b: seq<Place>)
    requires InSequence(a) && InSequence(b)
    requires forall p, q :: p in a && q in b ==> p.Before(q)
    ensures InSequence(a + b)
  {
  }

  ghost function TxPlaces(h: nat, i: nat, tx: seq<Option<Event>>): (r: seq<Place>)
    ensures forall p :: p in r <==> p.block == h && p.tx == i && p.index < |tx| && tx[p.index].Some?
    ensures InSequence(r)
  {
    if tx == [] then []
    else
      var before := TxPlaces(h, i, Front(tx));
      if Last(tx).None? then before else before + [Place(h, i, |tx| - 1)]
  }

  ghost function BlockPlaces(h: nat, txs: seq<seq<Option<Event>>>): (r: seq<Place>)
    ensures forall p :: p in r <==> p.block == h && EventOf(txs, p.tx, p.index).Some?
    ensures InSequence(r)
  {
    if txs == [] then []
    else
      var before, last := BlockPlaces(h, Front(txs)), TxPlaces(h, |txs| - 1, Last(txs));
      JoinSequence(before, last);
      before + last
  }

  ghost function Places(history: History, after: nat, hi: nat): (r: seq<Place>)
    ensures forall p :: p in r <==> after < p.block <= hi && EventAtPlace(history, p).Some?
    ensures InSequence(r)
    decreases hi
  {
    if hi <= after then []
    else if hi in history && history[hi].Some? then
      var before, last := Places(history, after, hi - 1), BlockPlaces(hi, history[hi].value);
      JoinSequence(before, last);
      before + last
    else Places(history, after, hi - 1)
  }

  lemma {:induction false} TxLocated(at: Height, i: nat, tx: seq<Option<Event>>)
    ensures var events, places := TxEvents(at, tx), TxPlaces(at.height, i, tx);
            && |events| == |places|
            && forall k :: 0 <= k < |places| ==> events[k].height == at && tx[places[k].index] == Some(events[k].event)
  {
    if tx != [] {
      TxLocated(at, i, Front(tx));
    }
  }

  lemma {:induction false} BlockLocated(at: Height, txs: seq<seq<Option<Event>>>)
    ensures var events, places := TxsEvents(at, txs), BlockPlaces(at.height, txs);
            && |events| == |places|
            && forall k :: 0 <= k < |places| ==>
                 events[k].height == at && EventOf(txs, places[k].tx, places[k].index) == Some(events[k].event)
  {
    if txs != [] {
      var before, last := BlockPlaces(at.height, Front(txs)), TxPlaces(at.height, |txs| - 1, Last(txs));
      BlockLocated(at, Front(txs));
      TxLocated(at, |txs| - 1, Last(txs));
      forall k | 0 <= k < |before|
        ensures EventOf(txs, before[k].tx, before[k].index) == EventOf(Front(txs), before[k].tx, before[k].index)
      {
        assert before[k] in before;
      }
    }
  }

  lemma {:induction false} EventsLocated(history: History, number: nat, after: nat, hi: nat)
    ensures Located(history, number, after, hi, EventsIn(history, number, after + 1, hi), Places(history, after, hi))
    decreases hi
  {
    if hi > after {
      EventsLocated(history, number, after, hi - 1);
      if hi in history && history[hi].Some? {
        LocatedStep(history, number, after, hi);
      }
    }
  }

  lemma LocatedStep(history: History, number: nat, after: nat, hi: nat)
    requires after < hi && hi in history && history[hi].Some?
    requires Located(history, number, after, hi - 1, EventsIn(history, number, after + 1, hi - 1),
                     Places(history, after, hi - 1))
    ensures Located(history, number, after, hi, EventsIn(history, number, after + 1, hi), Places(history, after, hi))
  {
    BlockStands(history, number, hi);
    JoinStandAt(history, number, EventsIn(history, number, after + 1, hi - 1), Places(history, after, hi - 1),
                TxsEvents(Height(number, hi), history[hi].value), BlockPlaces(hi, history[hi].value));
  }

  lemma BlockStands(history: History, number: nat, h: nat)
    requires h > 0 && h in history && history[h].Some?
    ensures StandAt(history, number, TxsEvents(Height(number, h), history[h].value), BlockPlaces(h, history[h].value))
  {
    var places := BlockPlaces(h, history[h].value);
    BlockLocated(Height(number, h), history[h].value);
    forall k | 0 <= k < |places|
      ensures places[k].block == h
    {
      assert places[k] in places;
    }
  }

  ghost predicate Serves(history: History, lo: nat, hi: nat) {
    forall h :: lo <= h <= hi ==> h in history
  }

  ghost function QueryLatest(history: History, client: Height, reading: Result<Reading>): Result<Latest> {
    match reading
    case Err(e) => Err(e)
    case Ok(r) =>
      if Serves(history, client.height + 1, r.latest.height)
      then Ok(Latest(EventsIn(history, r.latest.number, client.height + 1, r.latest.height), r.header,
        HeaderUpdateType(r.validatorsUnchanged)))
      else Err(QueryFailed)
  }

  /** What a scan gives: it succeeds exactly when the reading does and every block above the client's
      height, up to the latest one, is served. Then it returns the header and exactly the IBC events of
      those blocks, in order. */
  ghost predicate Scans(history: History, client: Height, reading: Result<Reading>, r: Result<Latest>) {
    && (r.Ok? <==> reading.Ok? && forall h :: client.height < h <= reading.value.latest.height ==> h in history)
    && (r.Err? ==> r.error == if reading.Err? then reading.error else QueryFailed)
    && (r.Ok? ==>
          && r.value.header == reading.value.header && r.value.update == Optional
          && exists places :: Located(history, reading.value.latest.number, client.height,
                                      reading.value.latest.height, r.value.events, places))
  }

  lemma ScanMeaning(history: History, client: Height, reading: Result<Reading>)
    ensures Scans(history, client, reading, QueryLatest(history, client, reading))
  {
    if QueryLatest(history, client, reading).Ok? {
      EventsLocated(history, reading.value.latest.number, client.height, reading.value.latest.height);
    }
  }

  /** Scans every block above the client's height up to the latest one. */
  method QueryLatestIbcEvents(history: History, client: Height, reading: Result<Reading>) returns (r: Result<Latest>)
    ensures r == QueryLatest(history, client, reading)
    ensures Scans(history, client, reading, r)
  {
    ScanMeaning(history, client, reading);
    if reading.Err? {
      return Err(reading.error);
    }
    var number := reading.value.latest.number;
    var ibcEvents: seq<EventAt> := [];
    var height := client.height + 1;
    while height < reading.value.latest.height + 1
      invariant client.height + 1 <= height
      invariant height == client.height + 1 || height <= reading.value.latest.height + 1
      invariant Serves(history, client.height + 1, height - 1)
      invariant ibcEvents == EventsIn(history, number, client.height + 1, height - 1)
    {
      if height !in history {
        return Err(QueryFailed);
      }
      var block := history[height];
      if block.Some? {
        ghost var before := ibcEvents;
        var at := Height(number, height);
        for i := 0 to |block.value|
          invariant ibcEvents == before + TxsEvents(at, block.value[..i])
        {
          assert Front(block.value[..i + 1]) == block.value[..i];
          ibcEvents := AppendTx(ibcEvents, at, block.value[i]);
        }
        assert block.value[..|block.value|] == block.value;
      }
      height := height + 1;
    }
    return Ok(Latest(ibcEvents, reading.value.header, HeaderUpdateType(reading.value.validatorsUnchanged)));
  }

  /** The innermost loop: the events of one transaction. */
  method AppendTx(events: seq<EventAt>, at: Height, tx: seq<Option<Event>>) returns (r: seq<EventAt>)
    ensures r == events + TxEvents(at, tx)
  {
    r := events;
    for i := 0 to |tx|
      invariant r == events + TxEvents(at, tx[..i])
    {
      assert Front(tx[..i + 1]) == tx[..i];
      match tx[i] {
        case Some(ev) => r := r + [EventAt(ev, at)];
        case None => continue;
      }
    }
    assert tx[..|tx|] == tx;
  }

  // ---------- one step ----------

  /** Everything one step observes: the source's blocks and answers, the two readings, the heights
      polled while waiting, and the sink's weight estimate and verdicts. */
  datatype Observed = Observed(
    history: History,
    answers: ChainView,
    first: Result<Reading>,
    polls: seq<Result<Height>>,
    second: Result<Reading>,
    weigh: seq<Msg> -> Result<nat>,
    verdicts: nat -> bool)

  datatype Ending = Retry | Skipped | StillWaiting | Sent | Fatal(error: Error)

  /** A flush that reached the sink: the scanned window `lo..hi`, the submitted header, the events of
      the window with the answers they were translated under, and what was sent of the batch. */
  datatype FlushRecord = FlushRecord(lo: nat, hi: nat, header: Height, events: seq<EventAt>, answers: ChainView,
                                     batch: seq<Msg>, sent: seq<Msg>)

  /** The client is read under one identifier and updated under another; `initial` is its height when
      the relayer starts. */
  datatype Route = Route(readId: Id, updateId: Id, initial: Height, maxWeight: nat)

  /** One direction of relaying, as the sink has experienced it. */
  datatype Link = Link(route: Route, delivered: seq<Msg>, flushes: seq<FlushRecord>) {
    function Client(): Height {
      ClientAfter(route.readId, route.initial, delivered)
    }
  }

  /** The height of client `id` on a chain that has processed `delivered`: an update never lowers it. */
  function ClientAfter(id: Id, initial: Height, delivered: seq<Msg>): Height {
    if delivered == [] then initial
    else
      var before := ClientAfter(id, initial, Front(delivered));
      var m := Last(delivered);
      if m.UpdateClient? && m.client == id && before.AtMost(m.header) then m.header else before
  }

  /** The client never falls below an update it was given, and is at one of them or at the start. */
  lemma {:induction false} ClientIsGreatest(id: Id, initial: Height, delivered: seq<Msg>)
    ensures var client := ClientAfter(id, initial, delivered);
            && initial.AtMost(client)
            && (forall m :: m in delivered && m.UpdateClient? && m.client == id ==> m.header.AtMost(client))
            && (|| client == initial
                || exists m :: m in delivered && m.UpdateClient? && m.client == id && m.header == client)
  {
    if delivered != [] {
      assert delivered == Front(delivered) + [Last(delivered)];
      ClientIsGreatest(id, initial, Front(delivered));
    }
  }

  datatype Waited = Reached | Pending | WaitFailed(error: Error)

  function Wait(polls: seq<Result<Height>>, target: Height): Waited {
    if polls == [] then Pending
    else if polls[0].Err? then WaitFailed(polls[0].error)
    else if polls[0].value.Below(target) then Wait(polls[1..], target)
    else Reached
  }

  /** The first `n` polls all answer, with heights below the target. */
  ghost predicate StillBelow(polls: seq<Result<Height>>, n: nat, target: Height) {
    n <= |polls| && forall j :: 0 <= j < n ==> polls[j].Ok? && polls[j].value.Below(target)
  }

  /** Poll `i` is the first one that does not keep the wait going, and it reaches the target. */
  ghost predicate ReachesAt(polls: seq<Result<Height>>, i: nat, target: Height) {
    StillBelow(polls, i, target) && i < |polls| && polls[i].Ok? && target.AtMost(polls[i].value)
  }

  ghost predicate FailsAt(polls: seq<Result<Height>>, i: nat, target: Height, error: Error) {
    StillBelow(polls, i, target) && i < |polls| && polls[i] == Err(error)
  }

  /** The wait ends with the first poll that fails or reaches the target, and is pending before. */
  ghost predicate WaitsFor(polls: seq<Result<Height>>, target: Height, r: Waited) {
    && (r.Reached? <==> exists i :: ReachesAt(polls, i, target))
    && (forall e :: r == WaitFailed(e) <==> exists i :: FailsAt(polls, i, target, e))
    && (r.Pending? <==> StillBelow(polls, |polls|, target))
  }

  lemma {:induction false} WaitStops(polls: seq<Result<Height>>, target: Height) returns (n: nat)
    ensures StillBelow(polls, n, target)
    ensures n < |polls| ==> polls[n].Err? || target.AtMost(polls[n].value)
    ensures Wait(polls, target) ==
              if n == |polls| then Pending else if polls[n].Err? then WaitFailed(polls[n].error) else Reached
  {
    if polls == [] || polls[0].Err? || !polls[0].value.Below(target) {
      n := 0;
    } else {
      var m := WaitStops(polls[1..], target);
      n := m + 1;
      forall j | 0 <= j < n
        ensures polls[j].Ok? && polls[j].value.Below(target)
      {
        assert j > 0 ==> polls[j] == polls[1..][j - 1];
      }
    }
  }

  lemma WaitMeaning(polls: seq<Result<Height>>, target: Height)
    ensures WaitsFor(polls, target, Wait(polls, target))
  {
    var n := WaitStops(polls, target);
    var r := Wait(polls, target);
    assert r.Reached? ==> ReachesAt(polls, n, target);
    assert r.WaitFailed? ==> FailsAt(polls, n, target, r.error);
    forall i | ReachesAt(polls, i, target)
      ensures i == n
    {
    }
    forall i, e | FailsAt(polls, i, target, e)
      ensures i == n
    {
    }
  }

  /** Whether a batch is sent at all. */
  predicate MustSend(update: UpdateType, events: seq<EventAt>, messages: seq<Msg>) {
    !(update.IsOptional() && !HasPacketEvents(events) && messages == [])
  }

  ghost function Send(link: Link, o: Observed, events: seq<EventAt>, batch: seq<Msg>): (Link, Ending)
    requires o.first.Ok? && o.second.Ok?
  {
    var flushed := Flush(batch, o.weigh(batch), link.route.maxWeight, o.verdicts);
    var sent := Flatten(flushed.batches);
    var record := FlushRecord(link.Client().height + 1, o.first.value.latest.height, o.second.value.header, events,
                              o.answers, batch, sent);
    (Link(link.route, link.delivered + sent, if flushed.batches == [] then link.flushes else link.flushes + [record]),
     if flushed.result.Ok? then Sent else Fatal(flushed.result.error))
  }

  ghost function Step(link: Link, o: Observed): (Link, Ending) {
    var first := QueryLatest(o.history, link.Client(), o.first);
    if first.Err? then (link, Retry)
    else
      var parsed := Parse(o.answers, first.value.events);
      if parsed.Err? then (link, Fatal(parsed.error))
      else
        match Wait(o.polls, parsed.value.proofHeight)
        case WaitFailed(e) => (link, Fatal(e))
        case Pending => (link, StillWaiting)
        case Reached =>
          var second := QueryLatest(o.history, link.Client(), o.second);
          if second.Err? then (link, Retry)
          else if !MustSend(second.value.update, first.value.events, parsed.value.messages) then (link, Skipped)
          else
            var update := UpdateClient(link.route.updateId, link.Client(), second.value.header);
            Send(link, o, first.value.events, [update] + parsed.value.messages)
  }

  // ---------- the chains the relayer works on ----------

  /** A chain with its transaction queue. `clientId` names its light client on the other chain, and
      `initial` is the height of the client it hosts when relaying starts. */
  class Chain {
    const clientId: Id
    const initial: Height
    const queue: Sink<Msg>
    ghost var flushes: seq<FlushRecord>

    constructor (clientId: Id, initial: Height, maxWeight: nat)
      ensures this.clientId == clientId && this.initial == initial && flushes == []
      ensures fresh(queue) && queue.maxWeight == maxWeight && queue.accepted == []
    {
      this.clientId := clientId;
      this.initial := initial;
      this.queue := new Sink<Msg>(maxWeight);
      this.flushes := [];
    }

    /** The height at which this chain hosts client `id`. */
    function HostedClient(id: Id): Height
      reads queue
    {
      ClientAfter(id, initial, Flatten(queue.accepted))
    }

    /** The direction from `source` to this chain. */
    ghost function LinkFrom(source: Chain): Link
      reads this, queue
    {
      Link(Route(clientId, source.clientId, initial, queue.maxWeight), Flatten(queue.accepted), flushes)
    }
  }

  /** Polls the source's height until it has reached the proofs. */
  method WaitForProofHeight(polls: seq<Result<Height>>, target: Height) returns (r: Waited)
    ensures r == Wait(polls, target)
    ensures WaitsFor(polls, target, r)
  {
    WaitMeaning(polls, target);
    var i := 0;
    while i < |polls|
      invariant i <= |polls|
      invariant Wait(polls, target) == Wait(polls[i..], target)
    {
      if polls[i].Err? {
        return WaitFailed(polls[i].error);
      }
      if !polls[i].value.Below(target) {
        return Reached;
      }
      i := i + 1;
    }
    return Pending;
  }

  /** What the sink accepts in a step begins with the update: of the client that the source's identifier
      names, from the height at which the sink hosts the client of its own identifier. */
  ghost predicate Leads(before: seq<seq<Msg>>, after: seq<seq<Msg>>, ending: Ending, update: Msg) {
    && before <= after
    && (ending == Sent ==> before != after)
    && (before != after ==>
          && (ending == Sent || ending.Fatal?)
          && after[|before|] != [] && after[|before|][0] == update)
  }

  /** Handles one finality notification of `source`. The client is read under the sink's identifier
      and updated under the source's. */
  method ProcessFinalityEvent(source: Chain, sink: Chain, o: Observed) returns (ending: Ending)
    modifies sink, sink.queue
    ensures (sink.LinkFrom(source), ending) == Step(old(sink.LinkFrom(source)), o)
    ensures Leads(old(sink.queue.accepted), sink.queue.accepted, ending,
                  UpdateClient(source.clientId, old(sink.HostedClient(sink.clientId)),
                               if o.second.Ok? then o.second.value.header else FIRST_HEIGHT))
  {
    var client := sink.HostedClient(sink.clientId);
    var first := QueryLatestIbcEvents(o.history, client, o.first);
    if first.Err? {
      return Retry;
    }
    var parsed := ParseEvents(o.answers, first.value.events);
    if parsed.Err? {
      return Fatal(parsed.error);
    }
    var messages := parsed.value.messages;
    var waited := WaitForProofHeight(o.polls, parsed.value.proofHeight);
    if waited.Pending? {
      return StillWaiting;
    }
    if waited.WaitFailed? {
      return Fatal(waited.error);
    }
    var second := QueryLatestIbcEvents(o.history, client, o.second);
    if second.Err? {
      return Retry;
    }
    if !MustSend(second.value.update, first.value.events, messages) {
      return Skipped;
    }
    ending := SendWithUpdate(source, sink, o, client, first.value.events, messages, second.value.header);
  }

  /** Puts the client update first and flushes the batch to the sink. */
  method SendWithUpdate(source: Chain, sink: Chain, o: Observed, client: Height, events: seq<EventAt>,
                        translated: seq<Msg>, header: Height)
    returns (ending: Ending)
    requires client == sink.HostedClient(sink.clientId)
    requires o.first.Ok? && o.second.Ok? && header == o.second.value.header
    modifies sink, sink.queue
    ensures (sink.LinkFrom(source), ending)
         == Send(old(sink.LinkFrom(source)), o, events, [UpdateClient(source.clientId, client, header)] + translated)
    ensures Leads(old(sink.queue.accepted), sink.queue.accepted, ending, UpdateClient(source.clientId, client, header))
  {
    var messages := [UpdateClient(source.clientId, client, header)] + translated;
    ghost var flushed := Flush(messages, o.weigh(messages), sink.queue.maxWeight, o.verdicts);
    FlattenAppend(sink.queue.accepted, flushed.batches);
    FirstMessageFirst(messages, o.weigh(messages), sink.queue.maxWeight, o.verdicts);
    CutShortIff(messages, o.weigh(messages), sink.queue.maxWeight, o.verdicts);
    var r := FlushMessageBatch(messages, o.weigh(messages), sink.queue, o.verdicts);
    if flushed.batches != [] {
      sink.flushes := sink.flushes + [FlushRecord(client.height + 1, o.first.value.latest.height, header,
                                                  events, o.answers, messages, Flatten(flushed.batches))];
    }
    return if r.Ok? then Sent else Fatal(r.error);
  }
}
