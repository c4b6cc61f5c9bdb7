/** Two concrete steps that lose something: an event in a gap, and the end of a batch that is cut short. */
module Losses {
  import opened Ibc
  import opened Lists
  import opened Events
  import opened Queue
  import opened Relay
  import opened Run
  import opened Coverage
  import opened Delivery

  const START: Link := Link(Route("client", "client", Height(1, 1), 1), [], [])

  /** A step that scans `events`, whose answers give `messages` with no proof above height 3, and whose
      header is at height 3. */
  ghost predicate Shows(o: Observed, events: seq<EventAt>, messages: seq<Msg>) {
    && o.first.Ok? && o.second.Ok? && o.second.value.header == Height(1, 3)
    && QueryLatest(o.history, Height(1, 1), o.first).Ok? && QueryLatest(o.history, Height(1, 1), o.second).Ok?
    && QueryLatest(o.history, Height(1, 1), o.first).value.events == events
    && Parse(o.answers, events) == Ok(Parsed(messages, [], Height(1, 3)))
    && o.polls == [Ok(Height(1, 3))]
  }

  const UPDATE: Msg := UpdateClient("client", Height(1, 1), Height(1, 3))

  lemma ShownBatch(o: Observed, events: seq<EventAt>, messages: seq<Msg>)
    requires Shows(o, events, messages) && messages != []
    ensures Sends(START, o) && BatchOf(START, o) == [UPDATE] + messages
    ensures Step(START, o) == Send(START, o, events, [UPDATE] + messages)
  {
    assert START.Client() == Height(1, 1);
    assert Wait(o.polls, Height(1, 3)).Reached?;
  }

  /** The close of a channel, which is confirmed under a proof at height 3. */
  ghost predicate Confirms(answers: ChainView, channel: Id, at: Height) {
    answers.Channel(at, ChannelKey(channel, "port")) ==
      Ok(ChannelAnswer(Some(ChannelEnd(ChanClosed, Unordered, "port", Some(channel), [], "")), Some(Height(1, 3))))
  }

  function Close(channel: Id, height: Height): EventAt {
    EventAt(CloseInitChannel("port", channel), height)
  }

  function Confirmation(channel: Id): Msg {
    ChanCloseConfirm("port", channel, Height(1, 3))
  }

  lemma CloseTranslates(answers: ChainView, channel: Id, at: Height)
    requires Confirms(answers, channel, at)
    ensures Translate(answers, Close(channel, at)) == Ok(Some(Confirmation(channel)))
  {
    ClosedTranslates(answers, at, "port", channel, answers.channels[(at, ChannelKey(channel, "port"))]);
  }

  lemma ParseTwo(answers: ChainView, a: EventAt, b: EventAt, m: Msg, n: Msg)
    requires !m.UpdateClient? && !n.UpdateClient?
    requires Translate(answers, a) == Ok(Some(m)) && Translate(answers, b) == Ok(Some(n))
    ensures Parse(answers, [a, b]) == Ok(Parsed([m, n], [], Raise(Raise(FIRST_HEIGHT, m.proof), n.proof)))
  {
    ParseOne(answers, a, m);
    assert Front([a, b]) == [a] && [m] + [n] == [m, n];
  }

  /** The first reading scans block 2, whose event is proved at height 3. The second reading fetches the
      header of block 3. The client is then at height 3, and the event of block 3 was not scanned. */
  lemma GapLosesEvent(o: Observed, second: EventAt, third: EventAt)
    requires second == Close("x", Height(1, 2)) && third == Close("y", Height(1, 3))
    requires o.history == map[2 := Some([[Some(second.event)]]), 3 := Some([[Some(third.event)]])]
    requires Confirms(o.answers, "x", Height(1, 2)) && o.polls == [Ok(Height(1, 3))]
    requires o.first == Ok(Reading(Height(1, 2), Height(1, 2), true))
    requires o.second == Ok(Reading(Height(1, 3), Height(1, 3), true))
    requires (forall batch: seq<Msg> :: o.weigh(batch) == Ok(0)) && o.verdicts(0)
    ensures var (next, ending) := Step(START, o);
            && ending == Sent && next.Client() == Height(1, 3)
            && EventsIn(o.history, 1, 2, 3) == [second, third]
            && Relayed(next.flushes) == [second] && Missed(next.flushes, 3)
            && next.delivered == [UPDATE, Confirmation("x")]
  {
    GapBlocks(o.history, second, third);
    GapShown(o, second);
    GapSent(o, second);
  }

  lemma GapBlocks(history: History, second: EventAt, third: EventAt)
    requires second.height == Height(1, 2) && third.height == Height(1, 3)
    requires 2 in history && history[2] == Some([[Some(second.event)]])
    requires 3 in history && history[3] == Some([[Some(third.event)]])
    ensures EventsIn(history, 1, 2, 2) == [second] && EventsIn(history, 1, 2, 3) == [second, third]
  {
    OneEventBlock(history, second, 1, 2);
    OneEventBlock(history, third, 1, 3);
    EventsInSplit(history, 1, 2, 2, 3);
  }

  lemma GapSent(o: Observed, second: EventAt)
    requires Shows(o, [second], [Confirmation("x")]) && o.first.value.latest == Height(1, 2)
    requires (forall batch: seq<Msg> :: o.weigh(batch) == Ok(0)) && o.verdicts(0)
    ensures var (next, ending) := Step(START, o);
            && ending == Sent && next.Client() == Height(1, 3) && next.delivered == [UPDATE, Confirmation("x")]
            && Relayed(next.flushes) == [second] && Missed(next.flushes, 3)
  {
    ShownBatch(o, [second], [Confirmation("x")]);
    assert [UPDATE] + [Confirmation("x")] == [UPDATE, Confirmation("x")];
    LightIsOneTransaction([UPDATE, Confirmation("x")], 0, 1, o.verdicts);
    SentAtOnce(o, second);
  }

  lemma GapShown(o: Observed, second: EventAt)
    requires 2 in o.history && 3 in o.history && EventsIn(o.history, 1, 2, 2) == [second]
    requires o.polls == [Ok(Height(1, 3))] && o.first == Ok(Reading(Height(1, 2), Height(1, 2), true))
    requires o.second == Ok(Reading(Height(1, 3), Height(1, 3), true))
    requires second == Close("x", Height(1, 2)) && Confirms(o.answers, "x", Height(1, 2))
    ensures Shows(o, [second], [Confirmation("x")])
  {
    CloseTranslates(o.answers, "x", second.height);
    ParseOne(o.answers, second, Confirmation("x"));
  }

  lemma SentAtOnce(o: Observed, ev: EventAt)
    requires o.first.Ok? && o.first.value.latest == Height(1, 2) && o.second.Ok?
             && o.second.value.header == Height(1, 3)
    requires Flush([UPDATE, Confirmation("x")], o.weigh([UPDATE, Confirmation("x")]), 1, o.verdicts) ==
               Flushed([[UPDATE, Confirmation("x")]], Ok(()))
    ensures var (next, ending) := Send(START, o, [ev], [UPDATE, Confirmation("x")]);
            && ending == Sent && next.Client() == Height(1, 3) && next.delivered == [UPDATE, Confirmation("x")]
            && Relayed(next.flushes) == [ev] && Missed(next.flushes, 3)
  {
    var batch := [UPDATE, Confirmation("x")];
    assert Front([batch]) == [] && Flatten([batch]) == Flatten([]) + batch;
    var (next, ending) := Send(START, o, [ev], batch);
    var none: seq<Msg> := [];
    assert none + batch == batch;
    ClientOfTwo(Confirmation("x"));
    var f := Last(next.flushes);
    assert next.flushes == [f] && Front(next.flushes) == [] && Relayed([]) == [];
    assert f in next.flushes && InGap(f, 3);
  }

  lemma ClientOfTwo(m: Msg)
    requires !m.UpdateClient?
    ensures ClientAfter("client", Height(1, 1), [UPDATE, m]) == Height(1, 3)
  {
    assert Front([UPDATE, m]) == [UPDATE] && Front([UPDATE]) == [];
    assert ClientAfter("client", Height(1, 1), []) == Height(1, 1);
    assert ClientAfter("client", Height(1, 1), [UPDATE]) == Height(1, 3);
  }

  /** A batch of the update and two confirmations, as heavy as the limit, goes out in chunks of two. The
      sink refuses the second chunk: the run ends with an error, the client has moved, and the second
      confirmation was not delivered. */
  lemma CutRunLosesMessage(w: World, o: Observed, a: EventAt, b: EventAt)
    requires w.ab == START
    requires a == Close("x", Height(1, 2)) && b == Close("y", Height(1, 2))
    requires o.history == map[2 := Some([[Some(a.event), Some(b.event)]])]
    requires Confirms(o.answers, "x", Height(1, 2)) && Confirms(o.answers, "y", Height(1, 2))
    requires o.polls == [Ok(Height(1, 3))] && o.first == Ok(Reading(Height(1, 2), Height(1, 2), true))
    requires o.second == Ok(Reading(Height(1, 2), Height(1, 3), true))
    requires (forall batch: seq<Msg> :: o.weigh(batch) == Ok(1)) && o.verdicts(0) && !o.verdicts(1)
    ensures var turns := [Notified(AtoB, o)];
            && CutShort(w, turns) && RunTurns(w, turns).1 == Failed(SubmitFailed)
            && RunTurns(w, turns).0.ab.delivered == [UPDATE, Confirmation("x")]
            && RunTurns(w, turns).0.ab.Client() == Height(1, 3)
  {
    var messages := [Confirmation("x"), Confirmation("y")];
    var batch := [UPDATE, Confirmation("x"), Confirmation("y")];
    assert [UPDATE] + messages == batch;
    CutShown(o, a, b);
    ShownBatch(o, [a, b], messages);
    CutAfterTwo(o, [a, b]);
    ClientOfTwo(Confirmation("x"));
    assert Front([Notified(AtoB, o)]) == [];
    assert RunTurns(w, []) == (w, Running);
  }

  lemma CutShown(o: Observed, a: EventAt, b: EventAt)
    requires a == Close("x", Height(1, 2)) && b == Close("y", Height(1, 2))
    requires 2 in o.history && o.history[2] == Some([[Some(a.event), Some(b.event)]])
    requires Confirms(o.answers, "x", Height(1, 2)) && Confirms(o.answers, "y", Height(1, 2))
    requires o.polls == [Ok(Height(1, 3))] && o.first == Ok(Reading(Height(1, 2), Height(1, 2), true))
    requires o.second == Ok(Reading(Height(1, 2), Height(1, 3), true))
    ensures Shows(o, [a, b], [Confirmation("x"), Confirmation("y")])
  {
    TwoEventBlock(o.history, a, b);
    CloseTranslates(o.answers, "x", Height(1, 2));
    CloseTranslates(o.answers, "y", Height(1, 2));
    ParseTwo(o.answers, a, b, Confirmation("x"), Confirmation("y"));
  }

  lemma TwoEventBlock(history: History, a: EventAt, b: EventAt)
    requires a.height == Height(1, 2) && b.height == Height(1, 2)
    requires 2 in history && history[2] == Some([[Some(a.event), Some(b.event)]])
    ensures EventsIn(history, 1, 2, 2) == [a, b]
  {
    var at := Height(1, 2);
    var tx := [Some(a.event), Some(b.event)];
    assert EventsIn(history, 1, 2, 1) == [];
    assert TxEvents(at, []) == [] && Front([Some(a.event)]) == [] && TxEvents(at, [Some(a.event)]) == [a];
    assert Front(tx) == [Some(a.event)] && TxEvents(at, tx) == [a] + [b];
    assert TxsEvents(at, []) == [] && Front([tx]) == [] && TxsEvents(at, [tx]) == [a, b];
  }

  lemma CutAfterTwo(o: Observed, events: seq<EventAt>)
    requires o.first.Ok? && o.second.Ok?
    requires (forall batch: seq<Msg> :: o.weigh(batch) == Ok(1)) && o.verdicts(0) && !o.verdicts(1)
    ensures var (next, ending) := Send(START, o, events, [UPDATE, Confirmation("x"), Confirmation("y")]);
            ending == Fatal(SubmitFailed) && next.delivered == [UPDATE, Confirmation("x")] && next.route == START.route
  {
    var batch := [UPDATE, Confirmation("x"), Confirmation("y")];
    assert batch[..2] == [UPDATE, Confirmation("x")] && batch[2..] == [Confirmation("y")];
    assert Chunks(batch, 2) == [batch[..2]] + Chunks(batch[2..], 2) == [batch[..2], batch[2..]];
    assert AcceptedCount(1, o.verdicts) == 1 && AcceptedCount(2, o.verdicts) == 1;
    assert Flush(batch, Ok(1), 1, o.verdicts).batches == [batch[..2]];
    assert Front([batch[..2]]) == [] && Flatten([batch[..2]]) == Flatten([]) + batch[..2];
  }
}
