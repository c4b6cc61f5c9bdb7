/** What a whole run guarantees: which events are relayed, that none is relayed twice, that every
    submitted header moves the client, and when a direction is stuck. */
module Coverage {
  import opened Ibc
  import opened Lists
  import opened Events
  import opened Queue
  import opened Wire
  import opened Weight
  import opened Relay
  import opened Run

  // ---------- every reachable state ----------

  /** Submitted headers move the client strictly: a flush starts above the client's height and the
      client ends at its header. The client must be read and updated under one identifier. */
  lemma StepKeepsInv(history: History, link: Link, o: Observed)
    requires link.route.readId == link.route.updateId
    requires Inv(history, link) && Orderly(history, link.route.initial.number, o)
    ensures var next := Step(link, o).0;
            && Inv(history, next) && next.route == link.route && link.flushes <= next.flushes
            && (next != link ==>
                  && next.Client() == Last(next.flushes).header
                  && next.Client().height > link.Client().height)
            && (next == link || |next.flushes| == |link.flushes| + 1)
  {
    StepShape(history, link, o);
    var next := Step(link, o).0;
    if next != link {
      var f := Last(next.flushes);
      ClientAppend(link.route.readId, link.route.initial, link.delivered, f.sent);
      ClientAfterBatch(link.route.readId, link.Client(), f.batch, f.sent);
      assert Front(next.flushes) == link.flushes;
    }
  }

  ghost predicate OrderlyTurn(ha: History, hb: History, w: World, t: Turn) {
    t.Notified? ==>
      if t.from == AtoB then Orderly(ha, w.ab.route.initial.number, t.seen)
      else Orderly(hb, w.ba.route.initial.number, t.seen)
  }

  ghost predicate InvWorld(ha: History, hb: History, w: World) {
    && w.ab.route.readId == w.ab.route.updateId && w.ba.route.readId == w.ba.route.updateId
    && Inv(ha, w.ab) && Inv(hb, w.ba)
  }

  /** Every state of every run, in both directions, keeps the record of flushes in order. A run may
      start from the state that an earlier one left behind. */
  lemma {:induction false} RunKeepsInv(ha: History, hb: History, w: World, turns: seq<Turn>)
    requires InvWorld(ha, hb, w)
    requires forall t :: t in turns ==> OrderlyTurn(ha, hb, w, t)
    ensures var w' := RunTurns(w, turns).0;
            && InvWorld(ha, hb, w') && w'.ab.route == w.ab.route && w'.ba.route == w.ba.route
            && w.ab.flushes <= w'.ab.flushes && w.ba.flushes <= w'.ba.flushes
            && w.ab.Client().height <= w'.ab.Client().height && w.ba.Client().height <= w'.ba.Client().height
  {
    if turns != [] {
      RunKeepsInv(ha, hb, w, Front(turns));
      var before := RunTurns(w, Front(turns));
      var last := Last(turns);
      assert OrderlyTurn(ha, hb, w, last);
      if before.1.Running? && last.Notified? {
        if last.from == AtoB {
          StepKeepsInv(ha, before.0.ab, last.seen);
        } else {
          StepKeepsInv(hb, before.0.ba, last.seen);
        }
      }
    }
  }

  /** Before anything is relayed. */
  ghost predicate Fresh(link: Link) {
    link.delivered == [] && link.flushes == [] && link.route.readId == link.route.updateId
  }

  lemma FreshWorldInOrder(ha: History, hb: History, w: World)
    requires Fresh(w.ab) && Fresh(w.ba)
    ensures InvWorld(ha, hb, w)
  {
  }

  // ---------- windows and gaps ----------

  ghost predicate Covers(f: FlushRecord, h: nat) {
    f.lo <= h <= f.header.height
  }

  /** A height was scanned for the flush, or it lies in the gap between the scan and the header. */
  ghost predicate InWindow(f: FlushRecord, h: nat) {
    f.lo <= h <= f.hi
  }

  ghost predicate InGap(f: FlushRecord, h: nat) {
    f.hi < h <= f.header.height
  }

  ghost predicate WellFormed(flushes: seq<FlushRecord>) {
    forall f :: f in flushes ==> 0 < f.lo <= f.hi <= f.header.height
  }

  /** Windows and gaps are disjoint and increasing: each flush starts above the header of every
      earlier one. */
  lemma {:induction false} FlushesIncrease(flushes: seq<FlushRecord>, from: nat, to: nat)
    requires Linked(flushes, from, to) && WellFormed(flushes)
    ensures from <= to
    ensures forall i, j :: 0 <= i < j < |flushes| ==> flushes[i].header.height < flushes[j].lo
    ensures forall f :: f in flushes ==> from < f.lo && f.header.height <= to
  {
    if flushes != [] {
      var front, last := Front(flushes), Last(flushes);
      assert flushes == front + [last];
      FlushesIncrease(front, from, last.lo - 1);
      assert forall i :: 0 <= i < |front| ==> front[i] in front;
    }
  }

  /** Together they fill the heights in between. */
  lemma {:induction false} FlushesFill(flushes: seq<FlushRecord>, from: nat, to: nat, h: nat)
    requires Linked(flushes, from, to) && from < h <= to
    ensures exists i :: 0 <= i < |flushes| && Covers(flushes[i], h)
  {
    var front, last := Front(flushes), Last(flushes);
    if h < last.lo {
      FlushesFill(front, from, last.lo - 1, h);
      var i :| 0 <= i < |front| && Covers(front[i], h);
      assert Covers(flushes[i], h);
    } else {
      assert Covers(flushes[|flushes| - 1], h);
    }
  }

  /** Each height between the initial and the present client height lies in exactly one flush, and
      there either in the scanned window or in the gap that was never scanned. */
  lemma ExactlyOnce(history: History, link: Link, h: nat)
    requires Inv(history, link) && link.route.initial.height < h <= link.Client().height
    ensures exists i :: 0 <= i < |link.flushes| && Covers(link.flushes[i], h)
    ensures forall i, j ::
              0 <= i < |link.flushes| && Covers(link.flushes[i], h) && 0 <= j < |link.flushes|
              && Covers(link.flushes[j], h)
              ==> i == j
    ensures forall f :: f in link.flushes ==> (Covers(f, h) <==> InWindow(f, h) != InGap(f, h))
  {
    FlushesIncrease(link.flushes, link.route.initial.height, link.Client().height);
    FlushesFill(link.flushes, link.route.initial.height, link.Client().height, h);
  }

  // ---------- the relayed events ----------

  ghost function Relayed(flushes: seq<FlushRecord>): seq<EventAt> {
    if flushes == [] then [] else Relayed(Front(flushes)) + Last(flushes).events
  }

  ghost predicate Missed(flushes: seq<FlushRecord>, h: nat) {
    exists f :: f in flushes && InGap(f, h)
  }

  ghost function NotMissed(flushes: seq<FlushRecord>): EventAt -> bool {
    (ev: EventAt) => !Missed(flushes, ev.height.height)
  }

  lemma {:induction false} EventsInSplit(history: History, number: nat, lo: nat, mid: nat, hi: nat)
    requires 0 < lo <= mid + 1 <= hi + 1
    ensures EventsIn(history, number, lo, hi)
              == EventsIn(history, number, lo, mid) + EventsIn(history, number, mid + 1, hi)
    decreases hi
  {
    if mid < hi {
      EventsInSplit(history, number, lo, mid, hi - 1);
    } else {
      assert EventsIn(history, number, mid + 1, hi) == [];
    }
  }

  lemma {:induction false} KeepAll<T(!new)>(s: seq<T>, p: T -> bool)
    requires forall x :: x in s ==> p(x)
    ensures Keep(s, p) == s
  {
    if s != [] {
      assert s == Front(s) + [Last(s)];
      assert forall x :: x in Front(s) ==> x in s;
      KeepAll(Front(s), p);
    }
  }

  lemma {:induction false} KeepNone<T(!new)>(s: seq<T>, p: T -> bool)
    requires forall x :: x in s ==> !p(x)
    ensures Keep(s, p) == []
  {
    if s != [] {
      assert s == Front(s) + [Last(s)];
      assert forall x :: x in Front(s) ==> x in s;
      KeepNone(Front(s), p);
    }
  }

  ghost predicate Scanned(history: History, number: nat, flushes: seq<FlushRecord>) {
    forall f :: f in flushes ==> f.lo > 0 && f.events == EventsIn(history, number, f.lo, f.hi)
  }

  /** The events translated for submission, over the whole run and in order, are exactly the source's
      events above the initial client height up to the present one, without those in gaps. So no
      event is translated for two flushes, and none outside a gap is left out. */
  lemma {:induction false} RelayedStream(history: History, number: nat, flushes: seq<FlushRecord>, from: nat, to: nat)
    requires Linked(flushes, from, to) && WellFormed(flushes) && Scanned(history, number, flushes)
    ensures Relayed(flushes) == Keep(EventsIn(history, number, from + 1, to), NotMissed(flushes))
    decreases |flushes|
  {
    if flushes != [] {
      FrontScanned(history, number, flushes, from, to);
      RelayedStream(history, number, Front(flushes), from, Last(flushes).lo - 1);
      StreamGrows(history, number, flushes, from, to);
      assert Relayed(flushes) == Relayed(Front(flushes)) + Last(flushes).events;
    }
  }

  lemma FrontScanned(history: History, number: nat, flushes: seq<FlushRecord>, from: nat, to: nat)
    requires flushes != [] && Linked(flushes, from, to) && WellFormed(flushes) && Scanned(history, number, flushes)
    ensures Linked(Front(flushes), from, Last(flushes).lo - 1) && WellFormed(Front(flushes))
            && Scanned(history, number, Front(flushes))
    ensures from < Last(flushes).lo <= to
    ensures Last(flushes).events == EventsIn(history, number, Last(flushes).lo, Last(flushes).hi)
  {
    assert Last(flushes) in flushes;
    FlushesIncrease(flushes, from, to);
  }

  lemma StreamGrows(history: History, number: nat, flushes: seq<FlushRecord>, from: nat, to: nat)
    requires flushes != [] && Linked(flushes, from, to) && WellFormed(flushes) && from < Last(flushes).lo
    ensures Keep(EventsIn(history, number, from + 1, to), NotMissed(flushes))
         == Keep(EventsIn(history, number, from + 1, Last(flushes).lo - 1), NotMissed(Front(flushes)))
            + EventsIn(history, number, Last(flushes).lo, Last(flushes).hi)
  {
    var last := Last(flushes);
    assert last in flushes;
    var before, since := EventsIn(history, number, from + 1, last.lo - 1), EventsIn(history, number, last.lo, to);
    EventsInSplit(history, number, from + 1, last.lo - 1, to);
    KeepAppend(before, since, NotMissed(flushes));
    KeptBefore(history, number, flushes, from, to);
    KeptSince(history, number, flushes, from, to);
  }

  /** The last flush leaves alone what was kept before it. */
  lemma KeptBefore(history: History, number: nat, flushes: seq<FlushRecord>, from: nat, to: nat)
    requires flushes != [] && Linked(flushes, from, to) && WellFormed(flushes)
    ensures var before := EventsIn(history, number, from + 1, Last(flushes).lo - 1);
            Keep(before, NotMissed(flushes)) == Keep(before, NotMissed(Front(flushes)))
  {
    var front, last := Front(flushes), Last(flushes);
    var before := EventsIn(history, number, from + 1, last.lo - 1);
    assert flushes == front + [last];
    EventsInRange(history, number, from + 1, last.lo - 1);
    forall ev | ev in before
      ensures NotMissed(flushes)(ev) == NotMissed(front)(ev)
    {
      assert !InGap(last, ev.height.height);
    }
    KeepSame(before, NotMissed(flushes), NotMissed(front));
  }

  /** Of the heights that the last flush covers, its window is kept and its gap is not. */
  lemma KeptSince(history: History, number: nat, flushes: seq<FlushRecord>, from: nat, to: nat)
    requires flushes != [] && Linked(flushes, from, to) && WellFormed(flushes)
    ensures var last := Last(flushes);
            Keep(EventsIn(history, number, last.lo, to), NotMissed(flushes))
              == EventsIn(history, number, last.lo, last.hi)
  {
    var last := Last(flushes);
    var window, gap := EventsIn(history, number, last.lo, last.hi), EventsIn(history, number, last.hi + 1, to);
    assert last in flushes;
    FlushesIncrease(flushes, from, to);
    EventsInSplit(history, number, last.lo, last.hi, to);
    KeepAppend(window, gap, NotMissed(flushes));
    EventsInRange(history, number, last.lo, last.hi);
    forall ev | ev in window
      ensures NotMissed(flushes)(ev)
    {
      WindowNotMissed(flushes, from, to, ev.height.height);
    }
    KeepAll(window, NotMissed(flushes));
    EventsInRange(history, number, last.hi + 1, to);
    forall ev | ev in gap
      ensures !NotMissed(flushes)(ev)
    {
      assert InGap(last, ev.height.height);
    }
    KeepNone(gap, NotMissed(flushes));
  }

  lemma WindowNotMissed(flushes: seq<FlushRecord>, from: nat, to: nat, h: nat)
    requires flushes != [] && Linked(flushes, from, to) && WellFormed(flushes) && InWindow(Last(flushes), h)
    ensures !Missed(flushes, h)
  {
    FlushesIncrease(flushes, from, to);
    forall f | f in flushes
      ensures !InGap(f, h)
    {
      var i :| 0 <= i < |flushes| && flushes[i] == f;
    }
  }

  /** The same for a link in order: the events of its flushes are those of the source's blocks up to the
      client's height, in order, without those in gaps. */
  ghost predicate RelaysStream(history: History, link: Link) {
    Relayed(link.flushes) ==
      Keep(EventsIn(history, link.route.initial.number, link.route.initial.height + 1, link.Client().height),
           NotMissed(link.flushes))
  }

  lemma InOrder(history: History, link: Link)
    requires Inv(history, link)
    ensures WellFormed(link.flushes) && Scanned(history, link.route.initial.number, link.flushes)
  {
    assert forall f :: f in link.flushes ==> GoodFlush(history, link.route, f);
  }

  lemma LinkRelaysStream(history: History, link: Link)
    requires Inv(history, link)
    ensures RelaysStream(history, link)
  {
    InOrder(history, link);
    RelayedStream(history, link.route.initial.number, link.flushes, link.route.initial.height, link.Client().height);
  }

  // ---------- when nothing is sent ----------

  /** The step gets as far as sending: all its queries succeed, the proofs are reached and there is
      something to send. */
  ghost predicate Sends(link: Link, o: Observed) {
    var first, second := QueryLatest(o.history, link.Client(), o.first),
        QueryLatest(o.history, link.Client(), o.second);
    && first.Ok? && second.Ok? && Parse(o.answers, first.value.events).Ok?
    && var parsed := Parse(o.answers, first.value.events).value;
    && Wait(o.polls, parsed.proofHeight).Reached?
    && MustSend(second.value.update, first.value.events, parsed.messages)
  }

  ghost function BatchOf(link: Link, o: Observed): seq<Msg>
    requires Sends(link, o)
  {
    [UpdateClient(link.route.updateId, link.Client(), o.second.value.header)] +
      Parse(o.answers, QueryLatest(o.history, link.Client(), o.first).value.events).value.messages
  }

  /** The reading succeeds and every block above the client, up to the latest one, is served. */
  ghost predicate Readable(link: Link, o: Observed, reading: Result<Reading>) {
    reading.Ok? && forall h :: link.Client().height < h <= reading.value.latest.height ==> h in o.history
  }

  /** What the answers make of the events of the first scan. */
  ghost function Translation(link: Link, o: Observed): Result<Parsed>
    requires o.first.Ok?
  {
    Parse(o.answers, EventsIn(o.history, o.first.value.latest.number, link.Client().height + 1,
                              o.first.value.latest.height))
  }

  /** The step gets past its wait and its second query. */
  ghost predicate GetsThrough(link: Link, o: Observed) {
    && Readable(link, o, o.first) && Translation(link, o).Ok?
    && (exists i :: ReachesAt(o.polls, i, Translation(link, o).value.proofHeight))
    && Readable(link, o, o.second)
  }

  /** When a step ends in which way, over its queries, polls, answers and verdicts. */
  ghost predicate EndsAs(link: Link, o: Observed, ending: Ending) {
    match ending
    case Retry =>
      || !Readable(link, o, o.first)
      || (&& Translation(link, o).Ok? && !Readable(link, o, o.second)
          && exists i :: ReachesAt(o.polls, i, Translation(link, o).value.proofHeight))
    case StillWaiting =>
      && Readable(link, o, o.first) && Translation(link, o).Ok?
      && StillBelow(o.polls, |o.polls|, Translation(link, o).value.proofHeight)
    case Skipped => GetsThrough(link, o) && !WorthSending(link, o)
    case Sent =>
      && GetsThrough(link, o) && WorthSending(link, o)
      && var plan := PlanOf(link, o); plan.Ok? && forall k :: 0 <= k < |plan.value| ==> o.verdicts(k)
    case Fatal(e) =>
      || (Readable(link, o, o.first) && Translation(link, o) == Err(e))
      || (&& Readable(link, o, o.first) && Translation(link, o).Ok?
          && exists i :: FailsAt(o.polls, i, Translation(link, o).value.proofHeight, e))
      || (GetsThrough(link, o) && WorthSending(link, o) && PlanOf(link, o) == Err(e))
      || (&& GetsThrough(link, o) && WorthSending(link, o) && e == SubmitFailed && PlanOf(link, o).Ok?
          && exists k :: 0 <= k < |PlanOf(link, o).value| && !o.verdicts(k))
  }

  /** The window has a packet event or gives a message. */
  ghost predicate WorthSending(link: Link, o: Observed)
    requires GetsThrough(link, o)
  {
    || Translation(link, o).value.messages != []
    || exists ev :: IsPacketEvent(ev) &&
         ev in EventsIn(o.history, o.first.value.latest.number, link.Client().height + 1, o.first.value.latest.height)
  }

  ghost function PlanOf(link: Link, o: Observed): Result<seq<seq<Msg>>>
    requires GetsThrough(link, o)
  {
    var batch := [UpdateClient(link.route.updateId, link.Client(), o.second.value.header)] +
      Translation(link, o).value.messages;
    Plan(batch, o.weigh(batch), link.route.maxWeight)
  }

  /** A step ends as it is described, and in no other way. */
  lemma StepEndsAs(link: Link, o: Observed)
    ensures forall ending :: Step(link, o).1 == ending <==> EndsAs(link, o, ending)
  {
    StepIsDescribed(link, o);
    forall ending | EndsAs(link, o, ending)
      ensures ending == Step(link, o).1
    {
      OneEnding(link, o, ending, Step(link, o).1);
    }
  }

  lemma StepIsDescribed(link: Link, o: Observed)
    ensures EndsAs(link, o, Step(link, o).1)
  {
    assert QueryLatest(o.history, link.Client(), o.first).Ok? <==> Readable(link, o, o.first);
    if Readable(link, o, o.first) && Translation(link, o).Ok? {
      WaitMeaning(o.polls, Translation(link, o).value.proofHeight);
      if GetsThrough(link, o) {
        PastTheWait(link, o);
      }
    }
  }

  lemma PastTheWait(link: Link, o: Observed)
    requires GetsThrough(link, o)
    ensures EndsAs(link, o, Step(link, o).1)
  {
    WaitMeaning(o.polls, Translation(link, o).value.proofHeight);
    var batch := [UpdateClient(link.route.updateId, link.Client(), o.second.value.header)] +
      Translation(link, o).value.messages;
    FlushOutcome(batch, o.weigh(batch), link.route.maxWeight, o.verdicts);
  }

  lemma OneEnding(link: Link, o: Observed, a: Ending, b: Ending)
    requires EndsAs(link, o, a) && EndsAs(link, o, b)
    ensures a == b
  {
    if Readable(link, o, o.first) && Translation(link, o).Ok? {
      WaitMeaning(o.polls, Translation(link, o).value.proofHeight);
    }
  }

  /** With nothing new to scan, a step that gets through its queries skips. */
  lemma EmptyWindowSkips(link: Link, o: Observed)
    requires o.first.Ok? && o.first.value.latest.height <= link.Client().height
    ensures Step(link, o).0 == link
    ensures Wait(o.polls, FIRST_HEIGHT).Reached? && QueryLatest(o.history, link.Client(), o.second).Ok? ==>
                  Step(link, o).1 == Skipped
  {
  }

  /** Once both queries and the wait are through, a batch is sent exactly when the window holds a
      packet event or gives a message; a change of validators alone is never sent. */
  lemma SendsIffWorthIt(link: Link, o: Observed)
    requires QueryLatest(o.history, link.Client(), o.first).Ok? && QueryLatest(o.history, link.Client(), o.second).Ok?
    requires Parse(o.answers, QueryLatest(o.history, link.Client(), o.first).value.events).Ok?
    requires var p := Parse(o.answers, QueryLatest(o.history, link.Client(), o.first).value.events).value;
             Wait(o.polls, p.proofHeight).Reached?
    ensures var events := QueryLatest(o.history, link.Client(), o.first).value.events;
            Step(link, o).1 == Skipped <==>
              (forall ev :: ev in events ==> !IsPacketEvent(ev)) && Parse(o.answers, events).value.messages == []
  {
  }

  /** When the client is read under another identifier than it is updated under, no step moves it, so
      every flush scans from the same height again. */
  lemma SplitIdentifiersRepeat(history: History, link: Link, o: Observed)
    requires link.route.readId != link.route.updateId
    requires link.Client().number == link.route.initial.number && Orderly(history, link.route.initial.number, o)
    ensures Step(link, o).0.Client() == link.Client()
    ensures Step(link, o).0 != link ==> Last(Step(link, o).0.flushes).lo == link.Client().height + 1
  {
    StepShape(history, link, o);
    var next := Step(link, o).0;
    if next != link {
      var f := Last(next.flushes);
      ClientAppend(link.route.readId, link.route.initial, link.delivered, f.sent);
      ClientAfterBatch(link.route.readId, link.Client(), f.batch, f.sent);
    }
  }

  // ---------- several revision numbers ----------

  /** A header covers every proof of a batch exactly when it is at or above the greatest proof height. */
  lemma CoveredIff(answers: ChainView, events: seq<EventAt>, header: Height)
    requires Parse(answers, events).Ok?
    ensures var p := Parse(answers, events).value;
            (forall m :: m in p.messages ==> !m.UpdateClient? && m.proof.height <= header.height) <==>
              p.proofHeight.height <= header.height
  {
    ProofHeightIsGreatest(answers, events);
  }

  /** The step sends a message whose proof lies above the submitted header. */
  ghost predicate Escapes(link: Link, o: Observed) {
    && Sends(link, o) && Step(link, o).1 == Sent
    && exists m :: m in BatchOf(link, o)[1..] && !m.UpdateClient? && m.proof.height > o.second.value.header.height
  }

  lemma OneEventBlock(history: History, ev: EventAt, number: nat, h: nat)
    requires h > 0 && h in history && history[h] == Some([[Some(ev.event)]]) && ev.height == Height(number, h)
    ensures EventsIn(history, number, h, h) == [ev]
  {
    assert EventsIn(history, number, h, h - 1) == [];
    assert TxEvents(ev.height, []) == [] && Front([Some(ev.event)]) == [];
    assert TxEvents(ev.height, [Some(ev.event)]) == [ev];
    assert TxsEvents(ev.height, []) == [] && Front([[Some(ev.event)]]) == [];
    assert TxsEvents(ev.height, [[Some(ev.event)]]) == [ev];
  }

  lemma ParseOne(answers: ChainView, ev: EventAt, m: Msg)
    requires !m.UpdateClient? && Translate(answers, ev) == Ok(Some(m))
    ensures Parse(answers, [ev]) == Ok(Parsed([m], [], Raise(FIRST_HEIGHT, m.proof)))
  {
    assert Front([ev]) == [] && Parse(answers, []) == Ok(Parsed([], [], FIRST_HEIGHT));
    var none: seq<Msg> := [];
    assert none + [m] == [m];
  }

  /** The wait compares revision numbers first, the running maximum only block heights. Here a source at
      revision 1 answers with a proof of revision 0, at height 9. Height 2 of revision 1 ends the wait,
      and the header submitted is at height 6. */
  lemma MixedRevisionsEscape(link: Link, o: Observed, ev: EventAt, proven: ChannelAnswer)
    requires link == Link(Route("client", "client", Height(1, 1), 1), [], [])
    requires ev == EventAt(CloseInitChannel("port", "channel"), Height(1, 2))
    requires o.history == map[2 := Some([[Some(ev.event)]])]
    requires o.answers.channels == map[(Height(1, 2), ChannelKey("channel", "port")) := proven]
    requires proven == ChannelAnswer(Some(ChannelEnd(ChanClosed, Unordered, "port", Some("other"), [], "")),
                                     Some(Height(0, 9)))
    requires o.first == Ok(Reading(Height(1, 2), Height(1, 2), true)) && o.polls == [Ok(Height(1, 2))]
    requires o.second == Ok(Reading(Height(1, 2), Height(1, 6), true))
    requires (forall batch: seq<Msg> :: o.weigh(batch) == Ok(0)) && o.verdicts(0)
    ensures Escapes(link, o)
  {
    OneEventBlock(o.history, ev, 1, 2);
    ClosedTranslates(o.answers, ev.height, "port", "channel", proven);
    LoneProofEscapes(link, o, ev, ChanCloseConfirm("port", "other", Height(0, 9)));
  }

  lemma ClosedTranslates(answers: ChainView, at: Height, port: Id, id: Id, proven: ChannelAnswer)
    requires answers.Channel(at, ChannelKey(id, port)) == Ok(proven)
    requires proven.end.Some? && proven.end.value.counterpartyChannel.Some?
    requires proven.proofHeight.Some? && proven.proofHeight.value.height > 0
    ensures var end, proof := proven.end.value, proven.proofHeight.value;
            Translate(answers, EventAt(CloseInitChannel(port, id), at)) ==
              Ok(Some(ChanCloseConfirm(end.counterpartyPort, end.counterpartyChannel.value, proof)))
  {
  }

  /** A step whose window gives one message, whose wait is over at once and whose header lies below
      the proof. */
  lemma LoneProofEscapes(link: Link, o: Observed, ev: EventAt, m: Msg)
    requires o.first.Ok? && QueryLatest(o.history, link.Client(), o.first).Ok?
             && QueryLatest(o.history, link.Client(), o.second).Ok?
    requires QueryLatest(o.history, link.Client(), o.first).value.events == [ev]
    requires !m.UpdateClient? && Translate(o.answers, ev) == Ok(Some(m))
    requires FIRST_HEIGHT.height < m.proof.height && o.second.value.header.height < m.proof.height
    requires o.polls != [] && o.polls[0].Ok? && !o.polls[0].value.Below(m.proof)
    requires link.route.maxWeight > 0 && (forall batch: seq<Msg> :: o.weigh(batch) == Ok(0)) && o.verdicts(0)
    ensures Escapes(link, o)
  {
    ParseOne(o.answers, ev, m);
    assert Sends(link, o);
    var batch := BatchOf(link, o);
    assert batch[1..] == [m] && m in batch[1..];
    LightIsOneTransaction(batch, 0, link.route.maxWeight, o.verdicts);
  }

  // ---------- an oversized window ----------

  /** How a Cosmos sink weighs batches: by the size estimate of their encoded messages. */
  datatype Scale = Scale(signer: Signer, encode: Msg -> Any, maxTxSize: nat)

  ghost predicate Weighs(o: Observed, scale: Scale) {
    forall batch: seq<Msg> :: o.weigh(batch) == Estimate(scale.signer, Encoded(batch, scale.encode), scale.maxTxSize)
  }

  /** The sink weighs by the estimate of some account, encoding and size limit, whose signatures have one
      length. All of them may differ from turn to turn. */
  ghost predicate WeighsWithin(o: Observed, limit: nat) {
    exists scale: Scale :: scale.signer.FixedLength() && Weighs(o, scale) && scale.maxTxSize == limit
  }

  /** From the link's client height on, the blocks up to `height` already give too much: 30 messages, or
      messages that do not fit into a transaction even without the client update. */
  ghost predicate Oversized(history: History, answers: ChainView, scale: Scale, link: Link, height: nat) {
    var parsed := Parse(answers, EventsIn(history, link.route.initial.number, link.Client().height + 1, height));
    parsed.Ok? ==>
      || |parsed.value.messages| >= MAX_MESSAGES
      || !Fits(scale.signer, Encoded(parsed.value.messages, scale.encode), scale.maxTxSize)
  }

  /** The step sees the source's blocks up to `height` at least, and under its answers they give too much
      for the account and limit by which the sink weighs at this turn. */
  ghost predicate SeesOversized(history: History, link: Link, height: nat, o: Observed) {
    && Orderly(history, link.route.initial.number, o)
    && (o.first.Ok? ==> o.first.value.latest.height >= height)
    && exists scale: Scale ::
         scale.signer.FixedLength() && Weighs(o, scale) && Oversized(history, o.answers, scale, link, height)
  }

  /** A window that gives too much cannot be sent along with its client update, and later windows
      contain it: no step of the direction sends anything any more. */
  lemma OversizedStepSendsNothing(history: History, link: Link, height: nat, o: Observed)
    requires height >= link.Client().height && SeesOversized(history, link, height, o)
    ensures Step(link, o).0 == link
  {
    if Sends(link, o) {
      var scale: Scale :| scale.signer.FixedLength() && Weighs(o, scale) &&
                          Oversized(history, o.answers, scale, link, height);
      OversizedBatch(history, scale, link, height, o);
      assert o.weigh(BatchOf(link, o)).Err?;
      assert link.delivered + [] == link.delivered;
    }
  }

  lemma OversizedBatch(history: History, scale: Scale, link: Link, height: nat, o: Observed)
    requires height >= link.Client().height && Orderly(history, link.route.initial.number, o) && Sends(link, o)
    requires o.first.value.latest.height >= height && scale.signer.FixedLength()
    requires Oversized(history, o.answers, scale, link, height)
    ensures !Fits(scale.signer, Encoded(BatchOf(link, o), scale.encode), scale.maxTxSize)
  {
    var early, whole := OversizedGrows(history, link, height, o);
    assert BatchOf(link, o) == [BatchOf(link, o)[0]] + whole;
    TooMuchStays(scale, BatchOf(link, o)[0], early, whole);
  }

  lemma TooMuchStays(scale: Scale, update: Msg, early: seq<Msg>, whole: seq<Msg>)
    requires scale.signer.FixedLength() && early <= whole
    requires |early| >= MAX_MESSAGES || !Fits(scale.signer, Encoded(early, scale.encode), scale.maxTxSize)
    ensures !Fits(scale.signer, Encoded([update] + whole, scale.encode), scale.maxTxSize)
  {
    var wire := Encoded(whole, scale.encode);
    assert Encoded([update] + whole, scale.encode) == [scale.encode(update)] + wire;
    assert Encoded(early, scale.encode) == wire[..|early|];
    if Fits(scale.signer, [scale.encode(update)] + wire, scale.maxTxSize) {
      PartFits(scale.signer, scale.encode(update), wire, |early|, scale.maxTxSize);
    }
  }

  /** The messages of the blocks up to `height` come first in the batch, after the update. */
  lemma OversizedGrows(history: History, link: Link, height: nat, o: Observed)
    returns (early: seq<Msg>, whole: seq<Msg>)
    requires height >= link.Client().height && Orderly(history, link.route.initial.number, o) && Sends(link, o)
    requires o.first.value.latest.height >= height
    ensures var parsed := Parse(o.answers,
                                EventsIn(history, link.route.initial.number, link.Client().height + 1, height));
            parsed.Ok? && early == parsed.value.messages
    ensures early <= whole && BatchOf(link, o)[1..] == whole
  {
    var number, lo, hi := link.route.initial.number, link.Client().height + 1, o.first.value.latest.height;
    EventsInSame(history, o.history, number, lo, hi);
    EventsInSplit(history, number, lo, height, hi);
    var first, all := EventsIn(history, number, lo, height), EventsIn(history, number, lo, hi);
    assert all[..|first|] == first;
    ParsePrefix(o.answers, all, |first|);
    early, whole := Parse(o.answers, first).value.messages, Parse(o.answers, all).value.messages;
  }

  /** So the client of that direction never moves again, in any run, restarts included, whatever the
      source answers and whichever account signs, as long as the blocks give too much under them. */
  lemma {:induction false} OversizedIsStuck(history: History, w: World, height: nat, turns: seq<Turn>)
    requires height >= w.ab.Client().height
    requires forall t :: t in turns && t.Notified? && t.from == AtoB ==> SeesOversized(history, w.ab, height, t.seen)
    ensures RunTurns(w, turns).0.ab == w.ab
  {
    if turns != [] {
      OversizedIsStuck(history, w, height, Front(turns));
      var last := Last(turns);
      if last.Notified? && last.from == AtoB {
        assert last in turns;
        OversizedStepSendsNothing(history, w.ab, height, last.seen);
      }
    }
  }
}
