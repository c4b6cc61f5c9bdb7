/** What the sink has received over a run: every submitted batch in order, what a refused chunk costs,
    and why a sink that is never split loses nothing. */
module Delivery {
  import opened Ibc
  import opened Lists
  import opened Events
  import opened Queue
  import opened Weight
  import opened Relay
  import opened Run
  import opened Coverage

  // ---------- what was received, and what should have been ----------

  ghost predicate Whole(flushes: seq<FlushRecord>) {
    forall f :: f in flushes ==> f.sent == f.batch
  }

  ghost function Translations(answers: ChainView, events: seq<EventAt>): seq<Msg> {
    if Parse(answers, events).Ok? then Parse(answers, events).value.messages else []
  }

  /** The batch of one flush: the update from right below the window to the submitted header, then the
      translations of the window's events, in order. */
  ghost function Submission(history: History, route: Route, f: FlushRecord): seq<Msg>
    requires f.lo > 1
  {
    [UpdateClient(route.updateId, Height(route.initial.number, f.lo - 1), f.header)] +
      Translations(f.answers, EventsIn(history, route.initial.number, f.lo, f.hi))
  }

  ghost function Submitted(history: History, route: Route, flushes: seq<FlushRecord>): seq<Msg>
    requires forall f :: f in flushes ==> f.lo > 1
  {
    if flushes == [] then []
    else Submitted(history, route, Front(flushes)) + Submission(history, route, Last(flushes))
  }

  /** The sink received, flush by flush, exactly the update and the translations of the window. */
  ghost predicate Delivers(history: History, link: Link) {
    && (forall f :: f in link.flushes ==> f.lo > 1)
    && link.delivered == Submitted(history, link.route, link.flushes)
  }

  /** That is so exactly when no flush was cut short. */
  lemma DeliversIffWhole(history: History, link: Link)
    requires Inv(history, link)
    ensures Delivers(history, link) <==> Whole(link.flushes)
  {
    SentAgainstSubmitted(history, link.route, link.flushes);
  }

  lemma {:induction false} SentAgainstSubmitted(history: History, route: Route, flushes: seq<FlushRecord>)
    requires forall f :: f in flushes ==> f.lo > 1 && GoodFlush(history, route, f)
    ensures |SentIn(flushes)| <= |Submitted(history, route, flushes)|
    ensures SentIn(flushes) == Submitted(history, route, flushes) <==> Whole(flushes)
    ensures |SentIn(flushes)| == |Submitted(history, route, flushes)| ==> Whole(flushes)
  {
    if flushes != [] {
      var front, last := Front(flushes), Last(flushes);
      assert flushes == front + [last] && last in flushes;
      SentAgainstSubmitted(history, route, front);
      SubmissionIsBatch(history, route, last);
      assert Whole(flushes) <==> Whole(front) && last.sent == last.batch;
      if Whole(flushes) {
        assert SentIn(flushes) == Submitted(history, route, front) + last.batch;
      }
    }
  }

  lemma SubmissionIsBatch(history: History, route: Route, f: FlushRecord)
    requires f.lo > 1 && GoodFlush(history, route, f)
    ensures Submission(history, route, f) == f.batch
    ensures |f.sent| <= |f.batch| && (|f.sent| == |f.batch| <==> f.sent == f.batch)
  {
  }

  // ---------- one step ----------

  /** The sink takes the first of the transactions and refuses a later one. */
  ghost predicate RefusesLater(link: Link, o: Observed, batch: seq<Msg>) {
    var plan := Plan(batch, o.weigh(batch), link.route.maxWeight);
    plan.Ok? && o.verdicts(0) && exists k :: 0 < k < |plan.value| && !o.verdicts(k)
  }

  /** A recorded flush is whole exactly when its step ended well. A step changes the sink and yet
      fails exactly when its batch is split and the sink refuses a later chunk than the first. */
  lemma StepWholeIff(link: Link, o: Observed)
    ensures var (next, ending) := Step(link, o);
            && (next != link ==>
                  && next.flushes != []
                  && (Last(next.flushes).sent == Last(next.flushes).batch <==> !ending.Fatal?))
            && (next != link && ending.Fatal? <==> Sends(link, o) && RefusesLater(link, o, BatchOf(link, o)))
  {
    if Sends(link, o) {
      SendWholeIff(link, o, QueryLatest(o.history, link.Client(), o.first).value.events, BatchOf(link, o));
    }
  }

  lemma SendWholeIff(link: Link, o: Observed, events: seq<EventAt>, batch: seq<Msg>)
    requires o.first.Ok? && o.second.Ok? && batch != []
    ensures var (next, ending) := Send(link, o, events, batch);
            && (next != link ==>
                  && next.flushes != []
                  && (Last(next.flushes).sent == Last(next.flushes).batch <==> !ending.Fatal?))
            && (next != link && ending.Fatal? <==> RefusesLater(link, o, batch))
  {
    var flushed := Flush(batch, o.weigh(batch), link.route.maxWeight, o.verdicts);
    CutShortIff(batch, o.weigh(batch), link.route.maxWeight, o.verdicts);
    if flushed.batches == [] {
      assert link.delivered + Flatten(flushed.batches) == link.delivered;
    } else {
      assert |Send(link, o, events, batch).0.flushes| == |link.flushes| + 1;
    }
  }

  /** A Cosmos sink weighs by the estimate against the same limit. It receives something exactly when the
      step gets to sending, the whole batch fits, and the transaction goes through. */
  lemma EstimatedStepMovesIff(link: Link, o: Observed, scale: Scale)
    requires Weighs(o, scale) && scale.signer.FixedLength() && link.route.maxWeight == scale.maxTxSize
    ensures Step(link, o).0 != link <==>
              && Sends(link, o) && o.verdicts(0)
              && Fits(scale.signer, Encoded(BatchOf(link, o), scale.encode), scale.maxTxSize)
    ensures Step(link, o).0 != link ==> Step(link, o).1 == Sent
  {
    if Sends(link, o) {
      EstimatedSend(link, o, QueryLatest(o.history, link.Client(), o.first).value.events, BatchOf(link, o), scale);
    }
  }

  lemma EstimatedSend(link: Link, o: Observed, events: seq<EventAt>, batch: seq<Msg>, scale: Scale)
    requires o.first.Ok? && o.second.Ok? && batch != []
    requires Weighs(o, scale) && scale.signer.FixedLength() && link.route.maxWeight == scale.maxTxSize
    ensures var (next, ending) := Send(link, o, events, batch);
            && (next != link <==> o.verdicts(0) && Fits(scale.signer, Encoded(batch, scale.encode), scale.maxTxSize))
            && (next != link ==> ending == Sent)
  {
    EstimatedBatchIsOneTransaction(batch, scale.encode, scale.signer, scale.maxTxSize, o.verdicts);
    assert link.delivered + [] == link.delivered;
    assert Send(link, o, events, batch).0.flushes != link.flushes ==>
             |Send(link, o, events, batch).0.flushes| == |link.flushes| + 1;
  }

  // ---------- whole runs ----------

  ghost predicate WholeWorld(w: World) {
    Whole(w.ab.flushes) && Whole(w.ba.flushes)
  }

  /** All flushes but perhaps the last are whole. */
  ghost predicate WholeButLast(flushes: seq<FlushRecord>) {
    flushes == [] || Whole(Front(flushes))
  }

  /** The turn ends in a failure after a part of its batch reached the sink. */
  ghost predicate Cuts(w: World, turn: Turn) {
    && turn.Notified?
    && Step(w.Towards(turn.from), turn.seen).0 != w.Towards(turn.from)
    && Step(w.Towards(turn.from), turn.seen).1.Fatal?
  }

  ghost predicate CutShort(w: World, turns: seq<Turn>) {
    turns != [] &&
    (CutShort(w, Front(turns))
     || (RunTurns(w, Front(turns)).1.Running? && Cuts(RunTurns(w, Front(turns)).0, Last(turns))))
  }

  /** A run that is cut short ends there. */
  lemma {:induction false} CutEndsRun(w: World, turns: seq<Turn>)
    requires CutShort(w, turns)
    ensures RunTurns(w, turns).1.Failed?
  {
    if CutShort(w, Front(turns)) {
      CutEndsRun(w, Front(turns));
    }
  }

  /** A run loses a part of a batch exactly when one of its steps is cut short; only that batch loses
      its end. */
  lemma {:induction false} RunWholeIff(ha: History, hb: History, w: World, turns: seq<Turn>)
    requires InvWorld(ha, hb, w) && WholeWorld(w)
    requires forall t :: t in turns ==> OrderlyTurn(ha, hb, w, t)
    ensures WholeWorld(RunTurns(w, turns).0) <==> !CutShort(w, turns)
    ensures OneLossAtMost(RunTurns(w, turns).0)
  {
    if turns == [] {
      NoLoss(w);
    } else {
      RunWholeIff(ha, hb, w, Front(turns));
      RunKeepsInv(ha, hb, w, Front(turns));
      var (before, status) := RunTurns(w, Front(turns));
      assert OrderlyTurn(ha, hb, w, Last(turns));
      if !status.Running? {
        assert RunTurns(w, turns) == (before, status);
      } else if Last(turns).Notified? {
        assert !CutShort(w, Front(turns)) by {
          if CutShort(w, Front(turns)) {
            CutEndsRun(w, Front(turns));
          }
        }
        TurnWhole(ha, hb, before, Last(turns));
        assert RunTurns(w, turns).0 == before.After(Last(turns).from, Last(turns).seen);
      }
    }
  }

  /** Flush `g` scans only above the header of `f`, which is at or above the window of `f`. */
  ghost predicate Above(f: FlushRecord, g: FlushRecord) {
    && f.hi <= f.header.height < g.lo
    && (forall ev :: ev in f.events ==> f.lo <= ev.height.height <= f.hi)
    && (forall ev :: ev in g.events ==> ev.height.height > f.header.height)
  }

  /** Everything that reaches the sink after `link` comes from flushes that start above all the earlier
      headers, so from events above every window and every gap before them. */
  ghost predicate OnlyAbove(link: Link, later: Link) {
    && link.flushes <= later.flushes
    && var added := later.flushes[|link.flushes|..];
    && later.delivered == link.delivered + SentIn(added)
    && forall f, g :: f in link.flushes && g in added ==> Above(f, g)
  }

  /** What a flush left out, in its gap or behind a refused chunk, is lost for good: no later run scans
      an event of its window or its gap again. */
  lemma LossIsForGood(ha: History, hb: History, w: World, turns: seq<Turn>)
    requires InvWorld(ha, hb, w)
    requires forall t :: t in turns ==> OrderlyTurn(ha, hb, w, t)
    ensures OnlyAbove(w.ab, RunTurns(w, turns).0.ab) && OnlyAbove(w.ba, RunTurns(w, turns).0.ba)
  {
    RunKeepsInv(ha, hb, w, turns);
    LaterIsAbove(ha, w.ab, RunTurns(w, turns).0.ab);
    LaterIsAbove(hb, w.ba, RunTurns(w, turns).0.ba);
  }

  lemma LaterIsAbove(history: History, link: Link, later: Link)
    requires Inv(history, link) && Inv(history, later) && link.flushes <= later.flushes && link.route == later.route
    ensures OnlyAbove(link, later)
  {
    var added := later.flushes[|link.flushes|..];
    assert later.flushes == link.flushes + added;
    SentInAppend(link.flushes, added);
    InOrder(history, later);
    AddedAreAbove(history, later.route.initial.number, link.flushes, added,
                  later.route.initial.height, later.Client().height);
  }

  lemma AddedAreAbove(history: History, number: nat, flushes: seq<FlushRecord>, added: seq<FlushRecord>,
                      from: nat, to: nat)
    requires var all := flushes + added; Linked(all, from, to) && WellFormed(all) && Scanned(history, number, all)
    ensures forall f, g :: f in flushes && g in added ==> Above(f, g)
  {
    forall f, g | f in flushes && g in added
      ensures Above(f, g)
    {
      var i :| 0 <= i < |flushes| && flushes[i] == f;
      var j :| 0 <= j < |added| && added[j] == g;
      LaterFlushIsAbove(history, number, flushes + added, from, to, i, |flushes| + j);
    }
  }

  lemma LaterFlushIsAbove(history: History, number: nat, flushes: seq<FlushRecord>, from: nat, to: nat, i: nat, j: nat)
    requires Linked(flushes, from, to) && WellFormed(flushes) && Scanned(history, number, flushes)
    requires i < j < |flushes|
    ensures Above(flushes[i], flushes[j])
  {
    var f, g := flushes[i], flushes[j];
    assert f in flushes && g in flushes;
    FlushesIncrease(flushes, from, to);
    EventsInRange(history, number, f.lo, f.hi);
    EventsInRange(history, number, g.lo, g.hi);
  }

  lemma {:induction false} SentInAppend(a: seq<FlushRecord>, b: seq<FlushRecord>)
    ensures SentIn(a + b) == SentIn(a) + SentIn(b)
  {
    if b == [] {
      assert a + b == a;
    } else {
      assert Front(a + b) == a + Front(b) && Last(a + b) == Last(b);
      SentInAppend(a, Front(b));
      assert (SentIn(a) + SentIn(Front(b))) + Last(b).sent == SentIn(a) + (SentIn(Front(b)) + Last(b).sent);
    }
  }

  ghost predicate OneLossAtMost(w: World) {
    || (Whole(w.ab.flushes) && WholeButLast(w.ba.flushes))
    || (WholeButLast(w.ab.flushes) && Whole(w.ba.flushes))
  }

  lemma NoLoss(w: World)
    requires WholeWorld(w)
    ensures OneLossAtMost(w)
  {
  }

  lemma TurnWhole(ha: History, hb: History, w: World, turn: Turn)
    requires InvWorld(ha, hb, w) && OrderlyTurn(ha, hb, w, turn) && turn.Notified? && WholeWorld(w)
    ensures var w' := w.After(turn.from, turn.seen);
            (WholeWorld(w') <==> !Cuts(w, turn)) && OneLossAtMost(w')
  {
    StepWhole(if turn.from == AtoB then ha else hb, w.Towards(turn.from), turn.seen);
  }

  lemma StepWhole(history: History, link: Link, o: Observed)
    requires Inv(history, link) && Orderly(history, link.route.initial.number, o) && Whole(link.flushes)
    ensures var (next, ending) := Step(link, o);
            && WholeButLast(next.flushes)
            && (Whole(next.flushes) <==> next == link || !ending.Fatal?)
  {
    StepShape(history, link, o);
    StepWholeIff(link, o);
    var next := Step(link, o).0;
    if next != link {
      assert Front(next.flushes) == link.flushes;
    }
  }

  /** What both sinks hold after a run that is not cut short: in each direction, for every flush, the
      client update and then the translations of the window's events; and the windows' events are those
      of the source, in order, without those in gaps. */
  lemma RunDelivers(ha: History, hb: History, w: World, turns: seq<Turn>)
    requires InvWorld(ha, hb, w) && WholeWorld(w)
    requires forall t :: t in turns ==> OrderlyTurn(ha, hb, w, t)
    ensures var w' := RunTurns(w, turns).0;
            && RelaysStream(ha, w'.ab) && RelaysStream(hb, w'.ba)
            && (Delivers(ha, w'.ab) && Delivers(hb, w'.ba) <==> !CutShort(w, turns))
  {
    RunKeepsInv(ha, hb, w, turns);
    RunWholeIff(ha, hb, w, turns);
    var w' := RunTurns(w, turns).0;
    LinkRelaysStream(ha, w'.ab);
    LinkRelaysStream(hb, w'.ba);
    DeliversIffWhole(ha, w'.ab);
    DeliversIffWhole(hb, w'.ba);
  }

  /** The sink of this turn weighs as a Cosmos chain does, against its own limit and with whichever
      account signs now. */
  ghost predicate Estimated(w: World, turn: Turn) {
    turn.Notified? ==> WeighsWithin(turn.seen, w.Towards(turn.from).route.maxWeight)
  }

  /** Then no run is cut short. */
  lemma {:induction false} EstimatedRunIsNotCut(ha: History, hb: History, w: World, turns: seq<Turn>)
    requires InvWorld(ha, hb, w)
    requires forall t :: t in turns ==> OrderlyTurn(ha, hb, w, t) && Estimated(w, t)
    ensures !CutShort(w, turns)
  {
    if turns != [] {
      EstimatedRunIsNotCut(ha, hb, w, Front(turns));
      RunKeepsInv(ha, hb, w, Front(turns));
      var before, last := RunTurns(w, Front(turns)).0, Last(turns);
      assert OrderlyTurn(ha, hb, w, last) && Estimated(w, last);
      if last.Notified? {
        var limit := w.Towards(last.from).route.maxWeight;
        var scale: Scale :| scale.signer.FixedLength() && Weighs(last.seen, scale) && scale.maxTxSize == limit;
        EstimatedStepMovesIff(before.Towards(last.from), last.seen, scale);
      }
    }
  }
}
