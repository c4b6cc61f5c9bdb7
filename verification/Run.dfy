/** Whole runs of the relayer: any interleaving of both directions, with any answers. */
module Run {
  import opened Ibc
  import opened Lists
  import opened Events
  import opened Queue
  import opened Relay

  // ---------- runs ----------

  datatype Direction = AtoB | BtoA

  /** One turn of the relay loop: a stream yields a notification, or it has closed. */
  datatype Turn = Closed | Notified(from: Direction, seen: Observed)

  datatype World = World(ab: Link, ba: Link) {
    ghost function After(from: Direction, o: Observed): World {
      if from == AtoB then World(Step(ab, o).0, ba) else World(ab, Step(ba, o).0)
    }

    function Towards(from: Direction): Link {
      if from == AtoB then ab else ba
    }
  }

  datatype Status = Running | Waiting | StreamClosed | Failed(error: Error)

  /** What the loop does after a step. A step that still waits for a proof height keeps the loop from
      taking another turn. */
  function StatusAfter(ending: Ending): Status {
    match ending
    case Fatal(e) => Failed(e)
    case StillWaiting => Waiting
    case _ => Running
  }

  /** The loop stops when a stream closes or a step fails for good. */
  ghost function RunTurns(w: World, turns: seq<Turn>): (World, Status) {
    if turns == [] then (w, Running)
    else
      var (before, status) := RunTurns(w, Front(turns));
      if !status.Running? then (before, status)
      else
        match Last(turns)
        case Closed => (before, StreamClosed)
        case Notified(from, o) =>
          var ending := Step(before.Towards(from), o).1;
          (before.After(from, o), StatusAfter(ending))
  }

  // ---------- what a run is ----------

  /** The turn is a notification, and `after` is `before` with that direction moved on by one step. */
  ghost predicate Moves(before: World, t: Turn, after: World) {
    && t.Notified?
    && match t.from
       case AtoB => after == World(Step(before.ab, t.seen).0, before.ba)
       case BtoA => after == World(before.ab, Step(before.ba, t.seen).0)
  }

  ghost predicate EndsIn(before: World, t: Turn, ending: Ending) {
    t.Notified? && ending == if t.from == AtoB then Step(before.ab, t.seen).1 else Step(before.ba, t.seen).1
  }

  /** The loop takes another turn: it is told to try again, it skips the notification, or it has sent. */
  ghost predicate GoesOn(before: World, t: Turn, after: World) {
    Moves(before, t, after) && (EndsIn(before, t, Retry) || EndsIn(before, t, Skipped) || EndsIn(before, t, Sent))
  }

  /** The loop ends with this turn: a stream has closed, or a step failed or still waits. */
  ghost predicate StopsAt(before: World, t: Turn, after: World, status: Status) {
    match status
    case Running => false
    case StreamClosed => t.Closed? && after == before
    case Waiting => Moves(before, t, after) && EndsIn(before, t, StillWaiting)
    case Failed(e) => Moves(before, t, after) && EndsIn(before, t, Fatal(e))
  }

  /** The run takes the first `n` turns, through these worlds, and goes on after each of them; it has then
      run out of turns, or stops at the next one. */
  ghost predicate Runs(w: World, turns: seq<Turn>, worlds: seq<World>, final: World, status: Status) {
    && 0 < |worlds| <= |turns| + 1 && worlds[0] == w
    && (forall i :: 0 <= i < |worlds| - 1 ==> GoesOn(worlds[i], turns[i], worlds[i + 1]))
    && if |worlds| == |turns| + 1 then status == Running && final == worlds[|turns|]
       else StopsAt(worlds[|worlds| - 1], turns[|worlds| - 1], final, status)
  }

  lemma {:induction false} RunMeaning(w: World, turns: seq<Turn>) returns (worlds: seq<World>)
    ensures Runs(w, turns, worlds, RunTurns(w, turns).0, RunTurns(w, turns).1)
  {
    if turns == [] {
      worlds := [w];
    } else {
      worlds := RunMeaning(w, Front(turns));
      var before, now := RunTurns(w, Front(turns)), RunTurns(w, turns);
      if before.1.Running? {
        LastTurn(w, turns);
        worlds := RunsOn(w, turns, worlds, before.0, now.0, now.1);
      } else {
        RunsNoMore(w, turns, worlds, before.0, before.1);
      }
    }
  }

  lemma RunsNoMore(w: World, turns: seq<Turn>, worlds: seq<World>, final: World, status: Status)
    requires turns != [] && Runs(w, Front(turns), worlds, final, status) && !status.Running?
    ensures Runs(w, turns, worlds, final, status)
  {
  }

  lemma RunsOn(w: World, turns: seq<Turn>, worlds: seq<World>, now: World, after: World, status: Status)
    returns (extended: seq<World>)
    requires turns != [] && Runs(w, Front(turns), worlds, now, Running)
    requires if status.Running? then GoesOn(now, Last(turns), after) else StopsAt(now, Last(turns), after, status)
    ensures Runs(w, turns, extended, after, status)
  {
    extended := if status.Running? then worlds + [after] else worlds;
    forall i | 0 <= i < |extended| - 1
      ensures GoesOn(extended[i], turns[i], extended[i + 1])
    {
    }
  }

  lemma LastTurn(w: World, turns: seq<Turn>)
    requires turns != [] && RunTurns(w, Front(turns)).1.Running?
    ensures var (now, after) := (RunTurns(w, Front(turns)).0, RunTurns(w, turns));
            if after.1.Running? then GoesOn(now, Last(turns), after.0) else StopsAt(now, Last(turns), after.0, after.1)
  {
  }

  ghost predicate IsRun(w: World, turns: seq<Turn>, final: World, status: Status) {
    exists worlds :: Runs(w, turns, worlds, final, status)
  }

  lemma RunIsRun(w: World, turns: seq<Turn>)
    ensures IsRun(w, turns, RunTurns(w, turns).0, RunTurns(w, turns).1)
  {
    var worlds := RunMeaning(w, turns);
  }

  /** There is no other way for the run to go. */
  lemma RunUnique(w: World, turns: seq<Turn>, worlds: seq<World>, final: World, status: Status)
    requires Runs(w, turns, worlds, final, status)
    ensures RunTurns(w, turns) == (final, status)
  {
    var n := |worlds| - 1;
    RunFollows(w, turns, worlds, n);
    if n < |turns| {
      RunStopsAt(w, turns, n, worlds[n], final, status);
      RunStops(w, turns, n + 1);
    } else {
      assert turns[..n] == turns;
    }
  }

  lemma RunStopsAt(w: World, turns: seq<Turn>, n: nat, now: World, final: World, status: Status)
    requires n < |turns| && RunTurns(w, turns[..n]) == (now, Running) && StopsAt(now, turns[n], final, status)
    ensures RunTurns(w, turns[..n + 1]) == (final, status) && !status.Running?
  {
    assert Front(turns[..n + 1]) == turns[..n];
  }

  lemma {:induction false} RunFollows(w: World, turns: seq<Turn>, worlds: seq<World>, n: nat)
    requires n < |worlds| <= |turns| + 1 && worlds[0] == w
    requires forall i :: 0 <= i < |worlds| - 1 ==> GoesOn(worlds[i], turns[i], worlds[i + 1])
    ensures RunTurns(w, turns[..n]) == (worlds[n], Running)
  {
    if n > 0 {
      RunFollows(w, turns, worlds, n - 1);
      assert Front(turns[..n]) == turns[..n - 1];
      assert GoesOn(worlds[n - 1], turns[n - 1], worlds[n]);
    }
  }

  lemma {:induction false} RunStops(w: World, turns: seq<Turn>, n: nat)
    requires n <= |turns| && !RunTurns(w, turns[..n]).1.Running?
    ensures RunTurns(w, turns) == RunTurns(w, turns[..n])
  {
    if n < |turns| {
      assert Front(turns)[..n] == turns[..n];
      RunStops(w, Front(turns), n);
    } else {
      assert turns[..n] == turns;
    }
  }

  ghost predicate Separate(a: Chain, b: Chain)
  {
    a != b && a.queue != b.queue
  }

  ghost function WorldOf(a: Chain, b: Chain): World
    reads a, a.queue, b, b.queue
  {
    World(b.LinkFrom(a), a.LinkFrom(b))
  }

  /** The relay loop over the notifications of both chains. */
  method RelayLoop(a: Chain, b: Chain, turns: seq<Turn>) returns (r: Status)
    requires Separate(a, b)
    modifies a, a.queue, b, b.queue
    ensures (WorldOf(a, b), r) == RunTurns(old(WorldOf(a, b)), turns)
    ensures IsRun(old(WorldOf(a, b)), turns, WorldOf(a, b), r)
  {
    ghost var start := WorldOf(a, b);
    RunIsRun(start, turns);
    for i := 0 to |turns|
      invariant (WorldOf(a, b), Running) == RunTurns(start, turns[..i])
    {
      assert Front(turns[..i + 1]) == turns[..i];
      var ending;
      match turns[i] {
        case Closed =>
          RunStops(start, turns, i + 1);
          return StreamClosed;
        case Notified(AtoB, o) =>
          ending := ProcessFinalityEvent(a, b, o);
        case Notified(BtoA, o) =>
          ending := ProcessFinalityEvent(b, a, o);
      }
      if !StatusAfter(ending).Running? {
        RunStops(start, turns, i + 1);
        return StatusAfter(ending);
      }
    }
    assert turns[..|turns|] == turns;
    return Running;
  }

  // ---------- what a step may be shown ----------

  /** Every proof height in the source's answers carries one revision number. */
  ghost predicate OneRevision(answers: ChainView, number: nat) {
    && (forall k :: k in answers.channels && answers.channels[k].proofHeight.Some? ==>
      answers.channels[k].proofHeight.value.number == number)
    && (forall k :: k in answers.connections && answers.connections[k].proofHeight.Some? ==>
      answers.connections[k].proofHeight.value.number == number)
    && (forall k :: k in answers.packetProofs && answers.packetProofs[k].Some? ==>
          answers.packetProofs[k].value.number == number)
    && (forall k :: k in answers.ackProofs && answers.ackProofs[k].Some? ==>
          answers.ackProofs[k].value.number == number)
  }

  /** Within one step the source's height never falls, all its heights and proofs carry one revision
      number, and the blocks are those of its history. */
  ghost predicate Orderly(history: History, number: nat, o: Observed) {
    && (forall h :: h in o.history ==> h in history && o.history[h] == history[h])
    && (o.first.Ok? ==> o.first.value.latest.number == number)
    && (o.second.Ok? ==> o.second.value.header.number == number)
    && (o.first.Ok? && o.second.Ok? ==> o.first.value.latest.height <= o.second.value.header.height)
    && (forall p :: p in o.polls && p.Ok? ==> p.value.number == number)
    && (forall p :: p in o.polls && p.Ok? && o.second.Ok? ==> p.value.height <= o.second.value.header.height)
    && OneRevision(o.answers, number)
  }

  /** A flush in order: its window is not empty and ends at or below the header, the batch is the
      client update followed by the translation of the window's events, and no message needs a
      header above the submitted one. */
  ghost predicate GoodFlush(history: History, route: Route, f: FlushRecord) {
    && 1 < f.lo <= f.hi <= f.header.height
    && f.header.number == route.initial.number
    && f.events == EventsIn(history, route.initial.number, f.lo, f.hi)
    && Parse(f.answers, f.events).Ok?
    && f.batch == [UpdateClient(route.updateId, Height(route.initial.number, f.lo - 1), f.header)] +
      Parse(f.answers, f.events).value.messages
    && (forall m :: m in f.batch[1..] ==> !m.UpdateClient? && m.proof.height <= f.header.height)
    && f.sent != [] && f.sent <= f.batch
  }

  /** Each window starts right above the header of the flush before it. */
  ghost predicate Linked(flushes: seq<FlushRecord>, from: nat, to: nat) {
    if flushes == [] then from == to
    else Last(flushes).header.height == to && Last(flushes).lo > 0 && Linked(Front(flushes), from, Last(flushes).lo - 1)
  }

  /** What the sink received, flush by flush. */
  ghost function SentIn(flushes: seq<FlushRecord>): seq<Msg> {
    if flushes == [] then [] else SentIn(Front(flushes)) + Last(flushes).sent
  }

  ghost predicate Inv(history: History, link: Link) {
    && link.delivered == SentIn(link.flushes)
    && link.Client().number == link.route.initial.number
    && Linked(link.flushes, link.route.initial.height, link.Client().height)
    && forall f :: f in link.flushes ==> GoodFlush(history, link.route, f)
  }

  // ---------- one step ----------

  lemma {:induction false} EventsInRange(history: History, number: nat, lo: nat, hi: nat)
    requires lo > 0
    ensures forall ev :: ev in EventsIn(history, number, lo, hi) ==>
                  lo <= ev.height.height <= hi && ev.height.number == number
    decreases hi
  {
    if lo <= hi {
      EventsInRange(history, number, lo, hi - 1);
      if hi in history && history[hi].Some? {
        TxsEventsAt(Height(number, hi), history[hi].value);
      }
    }
  }

  lemma {:induction false} TxsEventsAt(at: Height, txs: seq<seq<Option<Event>>>)
    ensures forall ev :: ev in TxsEvents(at, txs) ==> ev.height == at
  {
    if txs != [] {
      TxsEventsAt(at, Front(txs));
      TxEventsAt(at, Last(txs));
    }
  }

  lemma {:induction false} TxEventsAt(at: Height, tx: seq<Option<Event>>)
    ensures forall ev :: ev in TxEvents(at, tx) ==> ev.height == at
  {
    if tx != [] {
      TxEventsAt(at, Front(tx));
    }
  }

  lemma {:induction false} EventsInSame(history: History, seen: History, number: nat, lo: nat, hi: nat)
    requires lo > 0 && Serves(seen, lo, hi)
    requires forall h :: h in seen ==> h in history && seen[h] == history[h]
    ensures EventsIn(seen, number, lo, hi) == EventsIn(history, number, lo, hi)
    decreases hi
  {
    if lo <= hi {
      EventsInSame(history, seen, number, lo, hi - 1);
      assert hi in seen;
    }
  }

  lemma {:induction false} WaitReached(polls: seq<Result<Height>>, target: Height)
    requires Wait(polls, target).Reached?
    ensures exists p :: p in polls && p.Ok? && target.AtMost(p.value)
  {
    if polls[0].value.Below(target) {
      WaitReached(polls[1..], target);
      var p :| p in polls[1..] && p.Ok? && target.AtMost(p.value);
      assert p in polls;
    } else {
      assert polls[0] in polls;
    }
  }

  lemma {:induction false} ClientAppend(id: Id, initial: Height, a: seq<Msg>, b: seq<Msg>)
    ensures ClientAfter(id, initial, a + b) == ClientAfter(id, ClientAfter(id, initial, a), b)
  {
    if b == [] {
      assert a + b == a;
    } else {
      assert Front(a + b) == a + Front(b) && Last(a + b) == Last(b);
      ClientAppend(id, initial, a, Front(b));
    }
  }

  /** A non-empty prefix of a batch moves the client exactly as its leading update does. */
  lemma ClientAfterBatch(id: Id, client: Height, batch: seq<Msg>, sent: seq<Msg>)
    requires batch != [] && batch[0].UpdateClient? && sent != [] && sent <= batch
    requires forall m :: m in batch[1..] ==> !m.UpdateClient?
    ensures ClientAfter(id, client, sent)
         == if batch[0].client == id && client.AtMost(batch[0].header) then batch[0].header else client
  {
  }

  /** What one step does to its direction: either nothing reaches the sink and nothing changes, or
      exactly one good flush is added, starting right above the client's height. */
  lemma StepShape(history: History, link: Link, o: Observed)
    requires link.Client().number == link.route.initial.number
    requires Orderly(history, link.route.initial.number, o)
    ensures var next := Step(link, o).0;
            || next == link
            || (&& next.route == link.route && |next.flushes| == |link.flushes| + 1
                && next.flushes == link.flushes + [Last(next.flushes)]
                && GoodFlush(history, link.route, Last(next.flushes))
                && Last(next.flushes).lo == link.Client().height + 1
                && next.delivered == link.delivered + Last(next.flushes).sent)
  {
    var client := link.Client();
    var first := QueryLatest(o.history, client, o.first);
    if first.Ok? && Parse(o.answers, first.value.events).Ok? {
      var parsed := Parse(o.answers, first.value.events).value;
      var second := QueryLatest(o.history, client, o.second);
      if Wait(o.polls, parsed.proofHeight).Reached? && second.Ok?
         && MustSend(second.value.update, first.value.events, parsed.messages) {
        SendShape(history, link, o, first.value.events);
      }
    }
  }

  lemma SendShape(history: History, link: Link, o: Observed, events: seq<EventAt>)
    requires link.Client().number == link.route.initial.number
    requires Orderly(history, link.route.initial.number, o) && o.first.Ok? && o.second.Ok?
    requires Serves(o.history, link.Client().height + 1, o.first.value.latest.height)
    requires events == EventsIn(o.history, o.first.value.latest.number, link.Client().height + 1,
                                o.first.value.latest.height)
    requires Parse(o.answers, events).Ok? && Wait(o.polls, Parse(o.answers, events).value.proofHeight).Reached?
    requires MustSend(HeaderUpdateType(o.second.value.validatorsUnchanged), events,
                      Parse(o.answers, events).value.messages)
    ensures var batch := [UpdateClient(link.route.updateId, link.Client(), o.second.value.header)] +
      Parse(o.answers, events).value.messages;
            var next := Send(link, o, events, batch).0;
            || next == link
            || (&& next.route == link.route && |next.flushes| == |link.flushes| + 1
                && next.flushes == link.flushes + [Last(next.flushes)]
                && GoodFlush(history, link.route, Last(next.flushes))
                && Last(next.flushes).lo == link.Client().height + 1
                && next.delivered == link.delivered + Last(next.flushes).sent)
  {
    var parsed := Parse(o.answers, events).value;
    var batch := [UpdateClient(link.route.updateId, link.Client(), o.second.value.header)] + parsed.messages;
    var flushed := Flush(batch, o.weigh(batch), link.route.maxWeight, o.verdicts);
    if flushed.batches == [] {
      assert link.delivered + Flatten(flushed.batches) == link.delivered;
    } else {
      WindowNotEmpty(o.answers, events, link.Client().height + 1, o.first.value.latest.height, o);
      EventsInSame(history, o.history, link.route.initial.number, link.Client().height + 1,
                   o.first.value.latest.height);
      FlushConserves(batch, o.weigh(batch), link.route.maxWeight, o.verdicts);
      FirstMessageFirst(batch, o.weigh(batch), link.route.maxWeight, o.verdicts);
      ProofsCovered(o.answers, events, history, link.route.initial.number, o);
      assert batch[1..] == parsed.messages;
    }
  }

  /** A batch is only sent for a window that is not empty. */
  lemma WindowNotEmpty(answers: ChainView, events: seq<EventAt>, lo: nat, hi: nat, o: Observed)
    requires lo > 0 && o.first.Ok? && events == EventsIn(o.history, o.first.value.latest.number, lo, hi)
    requires Parse(answers, events).Ok? && o.second.Ok?
    requires MustSend(HeaderUpdateType(o.second.value.validatorsUnchanged), events,
                      Parse(answers, events).value.messages)
    ensures lo <= hi
  {
  }

  /** The header that is fetched after the wait is at or above every proof. */
  lemma ProofsCovered(answers: ChainView, events: seq<EventAt>, history: History, number: nat, o: Observed)
    requires Orderly(history, number, o) && o.second.Ok? && answers == o.answers
    requires Parse(answers, events).Ok? && Wait(o.polls, Parse(answers, events).value.proofHeight).Reached?
    ensures forall m :: m in Parse(answers, events).value.messages ==>
                  !m.UpdateClient? && m.proof.height <= o.second.value.header.height
  {
    var target := Parse(answers, events).value.proofHeight;
    ProofHeightIsGreatest(answers, events);
    ProofNumbers(answers, events, number);
    WaitReached(o.polls, target);
    var p :| p in o.polls && p.Ok? && target.AtMost(p.value);
    assert target == FIRST_HEIGHT || target.number == number;
  }

  lemma TranslatedNumber(answers: ChainView, ev: EventAt, number: nat)
    requires OneRevision(answers, number) && Translate(answers, ev).Ok? && Translate(answers, ev).value.Some?
    ensures Translate(answers, ev).value.value.proof.number == number
  {
  }

  lemma {:induction false} ProofNumbers(answers: ChainView, events: seq<EventAt>, number: nat)
    requires OneRevision(answers, number) && Parse(answers, events).Ok?
    ensures forall m :: m in Parse(answers, events).value.messages ==> !m.UpdateClient? && m.proof.number == number
  {
    if events != [] {
      ProofNumbers(answers, Front(events), number);
      if Translate(answers, Last(events)).value.Some? {
        TranslatedNumber(answers, Last(events), number);
      }
    }
  }
}
