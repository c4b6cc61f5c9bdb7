/** Which of the submitted proofs the sink can check: a proof is checked against the consensus state that
    the sink's client holds at exactly the proof's height. */
module Checking {
  import opened Ibc
  import opened Lists
  import opened Events
  import opened Relay
  import opened Run
  import opened Coverage

  // ---------- the consensus states of the sink's client ----------

  /** The heights of client `id` once its chain has processed `delivered`: it starts with one, and every
      update adds its header. */
  ghost function Heights(id: Id, initial: Height, delivered: seq<Msg>): set<Height> {
    if delivered == [] then {initial}
    else
      var m := Last(delivered);
      Heights(id, initial, Front(delivered)) + if m.UpdateClient? && m.client == id then {m.header} else {}
  }

  ghost predicate IsHeader(flushes: seq<FlushRecord>, h: Height) {
    exists f :: f in flushes && f.header == h
  }

  lemma {:induction false} HeightsAppend(id: Id, initial: Height, a: seq<Msg>, b: seq<Msg>)
    requires b != [] && b[0].UpdateClient? && b[0].client == id
    requires forall m :: m in b[1..] ==> !m.UpdateClient?
    ensures Heights(id, initial, a + b) == Heights(id, initial, a) + {b[0].header}
  {
    assert Front(a + b) == a + Front(b) && Last(a + b) == Last(b);
    if |b| == 1 {
      assert a + Front(b) == a;
    } else {
      assert Last(b) in b[1..] && Front(b)[1..] <= b[1..];
      HeightsAppend(id, initial, a, Front(b));
    }
  }

  lemma {:induction false} HeightsOfFlushes(history: History, route: Route, flushes: seq<FlushRecord>)
    requires forall f :: f in flushes ==> GoodFlush(history, route, f)
    ensures forall h :: h in Heights(route.updateId, route.initial, SentIn(flushes)) <==>
                          h == route.initial || IsHeader(flushes, h)
  {
    if flushes != [] {
      var front, last := Front(flushes), Last(flushes);
      assert flushes == front + [last] && last in flushes;
      HeightsOfFlushes(history, route, front);
      LastHeader(flushes);
      SentStartsWithUpdate(history, route, last);
      HeightsAppend(route.updateId, route.initial, SentIn(front), last.sent);
    }
  }

  lemma LastHeader(flushes: seq<FlushRecord>)
    requires flushes != []
    ensures forall h :: IsHeader(flushes, h) <==> IsHeader(Front(flushes), h) || h == Last(flushes).header
  {
    assert flushes == Front(flushes) + [Last(flushes)];
  }

  lemma SentStartsWithUpdate(history: History, route: Route, f: FlushRecord)
    requires GoodFlush(history, route, f)
    ensures f.sent != [] && f.sent[0].UpdateClient? && f.sent[0].client == route.updateId
            && f.sent[0].header == f.header
    ensures forall m :: m in f.sent[1..] ==> !m.UpdateClient?
  {
    assert f.sent[0] == f.batch[0];
    assert f.sent[1..] <= f.batch[1..];
  }

  /** In every state that keeps the invariant, the sink's client holds its first height and the headers of
      the flushes, and no other height. */
  lemma ClientHoldsHeaders(history: History, link: Link)
    requires Inv(history, link)
    ensures forall h :: h in Heights(link.route.updateId, link.route.initial, link.delivered) <==>
                          h == link.route.initial || IsHeader(link.flushes, h)
  {
    HeightsOfFlushes(history, link.route, link.flushes);
  }

  // ---------- which proofs can be checked ----------

  /** What the sink's client holds while the messages of flush `i` are processed. */
  ghost function HeldAt(link: Link, i: nat): set<Height>
    requires i < |link.flushes|
  {
    Heights(link.route.updateId, link.route.initial, SentIn(link.flushes[..i + 1]))
  }

  /** An event is queried at its own height, and the answer proves the state one height further. */
  ghost predicate ProofsOneAbove(answers: ChainView, events: seq<EventAt>) {
    forall ev :: ev in events && Yields(answers)(ev) ==>
      Translate(answers, ev).value.value.proof == ev.height.Plus(1)
  }

  /** The messages of a flush that the sink can check. */
  ghost predicate Checkable(link: Link, i: nat)
    requires i < |link.flushes|
  {
    forall m :: m in link.flushes[i].batch && !m.UpdateClient? ==> m.proof in HeldAt(link, i)
  }

  /** A proof from above the client's previous height can be checked exactly when it is at the height of
      the header submitted with it. */
  lemma HeldIffHeader(history: History, link: Link, i: nat, proof: Height)
    requires Inv(history, link) && i < |link.flushes| && proof.height >= link.flushes[i].lo
    ensures proof in HeldAt(link, i) <==> proof == link.flushes[i].header
  {
    var flushes, f := link.flushes[..i + 1], link.flushes[i];
    assert forall g :: g in flushes ==> g in link.flushes;
    HeightsOfFlushes(history, link.route, flushes);
    InOrder(history, link);
    FlushesIncrease(link.flushes, link.route.initial.height, link.Client().height);
    assert f in link.flushes && f in flushes;
    forall g | g in flushes && g.header == proof
      ensures g == f
    {
      var j :| 0 <= j <= i && link.flushes[j] == g;
      assert j < i ==> g.header.height < f.lo;
    }
  }

  /** So a whole batch can be checked exactly when every event that gives a message lies in the block right
      below the submitted header. */
  lemma CheckableIff(history: History, link: Link, i: nat)
    requires Inv(history, link) && i < |link.flushes|
    requires ProofsOneAbove(link.flushes[i].answers, link.flushes[i].events)
    ensures var f := link.flushes[i];
            Checkable(link, i) <==>
              forall ev :: ev in f.events && Yields(f.answers)(ev) ==> ev.height.height + 1 == f.header.height
  {
    var f := link.flushes[i];
    assert f in link.flushes && GoodFlush(history, link.route, f);
    var messages := Parse(f.answers, f.events).value.messages;
    assert f.batch == [f.batch[0]] + messages;
    EventsInRange(history, link.route.initial.number, f.lo, f.hi);
    forall ev | ev in f.events && Yields(f.answers)(ev)
      ensures Proof(f.answers, ev) in HeldAt(link, i) <==> ev.height.height + 1 == f.header.height
    {
      HeldIffHeader(history, link, i, Proof(f.answers, ev));
    }
    MessagesAndEvents(f.answers, f.events);
    assert Checkable(link, i) ==> forall ev :: ev in f.events && Yields(f.answers)(ev) ==>
        Translate(f.answers, ev).value.value in messages;
  }

  ghost function Proof(answers: ChainView, ev: EventAt): Height
    requires Yields(answers)(ev)
  {
    Translate(answers, ev).value.value.proof
  }

  /** A message comes from an event, and an event that gives one has it among the messages. */
  lemma MessagesAndEvents(answers: ChainView, events: seq<EventAt>)
    requires Parse(answers, events).Ok?
    ensures forall m :: m in Parse(answers, events).value.messages <==>
                          exists ev :: ev in events && Yields(answers)(ev) && Translate(answers, ev).value.value == m
  {
    var messages, kept := Parse(answers, events).value.messages, Keep(events, Yields(answers));
    MessagesFollowEvents(answers, events);
    forall ev | ev in events && Yields(answers)(ev)
      ensures Translate(answers, ev).value.value in messages
    {
      var k :| 0 <= k < |kept| && kept[k] == ev;
      assert messages[k] in messages;
    }
    forall m | m in messages
      ensures exists ev :: ev in events && Yields(answers)(ev) && Translate(answers, ev).value.value == m
    {
      var k :| 0 <= k < |messages| && messages[k] == m;
      assert kept[k] in events && Yields(answers)(kept[k]);
    }
  }
}
