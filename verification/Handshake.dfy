/** The connection handshake: chains that follow 'Opening Handshake' of ICS-03, with the relayer's
    translations in between. */
module Handshake {
  import opened Ibc
  import opened Lists
  import opened Events

  datatype Side = A | B {
    function Other(): Side {
      if this == A then B else A
    }
  }

  type Ends = map<(Side, Id), ConnectionEnd>

  /** A message on its way. Its proof shows what the other chain stored under `provenId`. */
  datatype InFlight = InFlight(to: Side, msg: Msg, provenId: Id, shown: ConnectionEnd)

  datatype Net = Net(ends: Ends, flying: set<InFlight>)

  // ---------- the chains' handlers ----------

  /** OpenTry stores a new end when the proof shows an Init end that fits the message. */
  ghost predicate TryAccepted(ends: Ends, f: InFlight, newId: Id, version: Id) {
    && f.msg.ConnOpenTry?
    && (f.to, newId) !in ends && version in f.msg.versions
    && f.provenId == f.msg.counterpartyConnection
    && f.shown == ConnectionEnd(ConnInit, f.msg.counterpartyClient, f.msg.client, None, f.msg.versions, f.msg.delay)
  }

  /** OpenAck opens an Init end when the proof shows a TryOpen end that names it. */
  ghost predicate AckAccepted(ends: Ends, f: InFlight) {
    && f.msg.ConnOpenAck?
    && (f.to, f.msg.connection) in ends
    && var end := ends[(f.to, f.msg.connection)];
    && end.state == ConnInit && f.msg.chosen in end.versions
    && f.provenId == f.msg.counterpartyId
    && f.shown == ConnectionEnd(ConnTryOpen, end.counterpartyClient, end.clientId, Some(f.msg.connection),
                                [f.msg.chosen], end.delay)
  }

  /** OpenConfirm opens a TryOpen end when the proof shows that the end it names is open towards it. */
  ghost predicate ConfirmAccepted(ends: Ends, f: InFlight) {
    && f.msg.ConnOpenConfirm?
    && (f.to, f.msg.connection) in ends
    && var end := ends[(f.to, f.msg.connection)];
    && end.state == ConnTryOpen && end.counterpartyConnection == Some(f.provenId)
    && f.shown == ConnectionEnd(ConnOpen, end.counterpartyClient, end.clientId, Some(f.msg.connection), end.versions,
                                end.delay)
  }

  /** The ends after a message is handled; a message that is refused changes nothing. */
  ghost function Deliver(ends: Ends, f: InFlight, newId: Id, version: Id): Ends {
    if TryAccepted(ends, f, newId, version) then
      ends[(f.to, newId) := ConnectionEnd(ConnTryOpen, f.msg.client, f.msg.counterpartyClient,
        Some(f.msg.counterpartyConnection), [version], f.msg.delay)]
    else if AckAccepted(ends, f) then
      var end := ends[(f.to, f.msg.connection)];
      ends[(f.to, f.msg.connection) := end.(state := ConnOpen, counterpartyConnection := Some(f.msg.counterpartyId),
        versions := [f.msg.chosen])]
    else if ConfirmAccepted(ends, f) then
      ends[(f.to, f.msg.connection) := ends[(f.to, f.msg.connection)].(state := ConnOpen)]
    else ends
  }

  // ---------- any run ----------

  /** A user starts a handshake; the relayer translates an event of one chain; a message, which may
      be delivered late or repeatedly, reaches the other chain. */
  datatype Action =
    | Start(side: Side, id: Id, client: Id, counterpartyClient: Id, versions: seq<Id>, delay: nat)
    | RelayEvent(from: Side, view: ChainView, at: Height, event: Event)
    | Arrive(f: InFlight, newId: Id, version: Id)

  /** The source answers connection queries with what it stores. */
  ghost predicate Truthful(view: ChainView, ends: Ends, side: Side) {
    forall at: Height, id: Id :: (at, id) in view.connections && view.connections[(at, id)].end.Some? ==>
      (side, id) in ends && ends[(side, id)] == view.connections[(at, id)].end.value
  }

  function Subject(event: Event): Option<Id> {
    if event.OpenInitConnection? || event.OpenTryConnection? || event.OpenAckConnection?
    then event.connectionId
    else None
  }

  ghost function Act(net: Net, action: Action): Net {
    match action
    case Start(side, id, client, counterpartyClient, versions, delay) =>
      if (side, id) in net.ends then net
      else net.(ends := net.ends[(side, id) := ConnectionEnd(ConnInit, client, counterpartyClient, None, versions,
                                                             delay)])
    case RelayEvent(from, view, at, event) =>
      var m := Translate(view, EventAt(event, at));
      if Truthful(view, net.ends, from) && Subject(event).Some? && m.Ok? && m.value.Some? then
        var id := Subject(event).value;
        net.(flying := net.flying + {InFlight(from.Other(), m.value.value, id, view.connections[(at, id)].end.value)})
      else net
    case Arrive(f, newId, version) =>
      if f in net.flying then net.(ends := Deliver(net.ends, f, newId, version)) else net
  }

  ghost function Acts(net: Net, actions: seq<Action>): Net {
    if actions == [] then net else Act(Acts(net, Front(actions)), Last(actions))
  }

  const EMPTY: Net := Net(map[], {})

  // ---------- what every reachable state keeps ----------

  /** The two ends name each other's clients, and agree on the delay. */
  ghost predicate Matching(end: ConnectionEnd, other: ConnectionEnd) {
    end.clientId == other.counterpartyClient && end.counterpartyClient == other.clientId && end.delay == other.delay
  }

  /** An Init end names nobody. An end that is being opened names an end of the other chain with
      matching clients and has settled on one version, which that end offers while it is still Init.
      An open end is named back by that end, which has left the initial state and agrees on the version. */
  ghost predicate Agrees(ends: Ends, side: Side, id: Id)
    requires (side, id) in ends
  {
    var end := ends[(side, id)];
    if end.state == ConnInit then end.counterpartyConnection == None
    else
      && end.counterpartyConnection.Some?
      && var there := (side.Other(), end.counterpartyConnection.value);
      && there in ends && Matching(end, ends[there])
      && |end.versions| == 1 && (ends[there].state == ConnInit ==> end.versions[0] in ends[there].versions)
      && (end.state == ConnOpen ==>
            ends[there].state != ConnInit && ends[there].counterpartyConnection == Some(id)
            && ends[there].versions == end.versions)
  }

  /** How an end may have moved on since it was shown. */
  ghost predicate MovedOn(shown: ConnectionEnd, now: ConnectionEnd) {
    && shown.clientId == now.clientId && shown.counterpartyClient == now.counterpartyClient && shown.delay == now.delay
    && (shown.state == ConnInit ==> now.state != ConnInit || now == shown)
    && (shown.state == ConnTryOpen ==>
          now.state != ConnInit && now.counterpartyConnection == shown.counterpartyConnection
          && now.versions == shown.versions)
    && (shown.state == ConnOpen ==> now == shown)
  }

  ghost predicate Backed(ends: Ends, f: InFlight) {
    && (f.to.Other(), f.provenId) in ends && MovedOn(f.shown, ends[(f.to.Other(), f.provenId)])
    && (f.shown.state == ConnInit ==> f.shown.counterpartyConnection == None)
    && (f.shown.state != ConnInit ==> |f.shown.versions| == 1)
  }

  /** What a relayed message says about the end it was translated from: OpenTry repeats that end's
      values from the other side, OpenAck and OpenConfirm go to the end that it names. */
  ghost predicate Faithful(f: InFlight) {
    match f.msg
    case ConnOpenTry(_, client, _, connection, versions, delay, _) =>
      && client == f.shown.counterpartyClient && connection == f.provenId
      && versions == f.shown.versions && delay == f.shown.delay
    case ConnOpenAck(connection, id, chosen, _) =>
      && f.shown.counterpartyConnection == Some(connection) && id == f.provenId
      && f.shown.versions != [] && chosen == f.shown.versions[0]
    case ConnOpenConfirm(connection, _) => f.shown.counterpartyConnection == Some(connection)
    case _ => false
  }

  ghost predicate Inv(net: Net) {
    && (forall s: Side, i: Id :: (s, i) in net.ends ==> Agrees(net.ends, s, i))
    && (forall f :: f in net.flying ==> Backed(net.ends, f) && Faithful(f))
  }

  lemma TranslatedFromAnswer(view: ChainView, at: Height, event: Event)
    requires Subject(event).Some? && Translate(view, EventAt(event, at)).Ok?
             && Translate(view, EventAt(event, at)).value.Some?
    ensures var key := (at, Subject(event).value);
            && key in view.connections && view.connections[key].end.Some?
            && forall to: Side :: Faithful(InFlight(to, Translate(view, EventAt(event, at)).value.value, key.1,
                                                    view.connections[key].end.value))
  {
  }

  lemma DeliverKeepsOthers(ends: Ends, f: InFlight, newId: Id, version: Id)
    ensures var ends' := Deliver(ends, f, newId, version);
            && (forall k :: k in ends ==> k in ends' && MovedOn(ends[k], ends'[k]))
            && (forall k :: k in ends' ==> k.0 == f.to || (k in ends && ends'[k] == ends[k]))
  {
  }

  lemma MovedOnTwice(a: ConnectionEnd, b: ConnectionEnd, c: ConnectionEnd)
    requires MovedOn(a, b) && MovedOn(b, c)
    ensures MovedOn(a, c)
  {
  }

  lemma TryKeepsAgreement(ends: Ends, f: InFlight, newId: Id, version: Id)
    requires forall s: Side, i: Id :: (s, i) in ends ==> Agrees(ends, s, i)
    requires Backed(ends, f) && TryAccepted(ends, f, newId, version)
    ensures forall s: Side, i: Id :: (s, i) in Deliver(ends, f, newId, version) ==>
                  Agrees(Deliver(ends, f, newId, version), s, i)
  {
  }

  lemma AckKeepsAgreement(ends: Ends, f: InFlight, newId: Id, version: Id)
    requires forall s: Side, i: Id :: (s, i) in ends ==> Agrees(ends, s, i)
    requires Backed(ends, f) && AckAccepted(ends, f)
    ensures forall s: Side, i: Id :: (s, i) in Deliver(ends, f, newId, version) ==>
                  Agrees(Deliver(ends, f, newId, version), s, i)
  {
  }

  lemma ConfirmKeepsAgreement(ends: Ends, f: InFlight, newId: Id, version: Id)
    requires forall s: Side, i: Id :: (s, i) in ends ==> Agrees(ends, s, i)
    requires Backed(ends, f) && ConfirmAccepted(ends, f)
    ensures forall s: Side, i: Id :: (s, i) in Deliver(ends, f, newId, version) ==>
                  Agrees(Deliver(ends, f, newId, version), s, i)
  {
  }

  lemma StepKeepsAgreement(net: Net, action: Action)
    requires Inv(net)
    ensures Inv(Act(net, action))
  {
    match action {
      case Start(side, id, _, _, _, _) =>
        forall s: Side, i: Id | (s, i) in Act(net, action).ends
          ensures Agrees(Act(net, action).ends, s, i)
        {
          if (s, i) in net.ends {
            assert Agrees(net.ends, s, i);
          }
        }
      case RelayEvent(from, view, at, event) =>
        assert from.Other().Other() == from;
        if Act(net, action) != net {
          TranslatedFromAnswer(view, at, event);
        }
      case Arrive(f, newId, version) =>
        if f in net.flying {
          ArrivalKeepsAgreement(net, f, newId, version);
        }
    }
  }

  lemma ArrivalKeepsAgreement(net: Net, f: InFlight, newId: Id, version: Id)
    requires Inv(net) && f in net.flying
    ensures Inv(net.(ends := Deliver(net.ends, f, newId, version)))
  {
    var ends := net.ends;
    var ends' := Deliver(ends, f, newId, version);
    if TryAccepted(ends, f, newId, version) {
      TryKeepsAgreement(ends, f, newId, version);
    } else if AckAccepted(ends, f) {
      AckKeepsAgreement(ends, f, newId, version);
    } else if ConfirmAccepted(ends, f) {
      ConfirmKeepsAgreement(ends, f, newId, version);
    }
    DeliverKeepsOthers(ends, f, newId, version);
    forall g | g in net.flying
      ensures Backed(ends', g)
    {
      var k := (g.to.Other(), g.provenId);
      MovedOnTwice(g.shown, ends[k], ends'[k]);
    }
  }

  /** In every state of every run, with late or repeated messages, each message in flight repeats the
      end it was made from, and an open end is named back by the end it names, with each other's client,
      one version and one delay. The second half rests on the handlers' checks alone. */
  lemma {:induction false} OpenEndsAgree(actions: seq<Action>)
    ensures Inv(Acts(EMPTY, actions))
    ensures var ends := Acts(EMPTY, actions).ends;
            forall s: Side, i: Id :: (s, i) in ends && ends[(s, i)].state == ConnOpen ==>
              && ends[(s, i)].counterpartyConnection.Some?
              && var there := (s.Other(), ends[(s, i)].counterpartyConnection.value);
              && there in ends && ends[there].counterpartyConnection == Some(i)
              && Matching(ends[(s, i)], ends[there]) && ends[there].versions == ends[(s, i)].versions
  {
    if actions != [] {
      OpenEndsAgree(Front(actions));
      StepKeepsAgreement(Acts(EMPTY, Front(actions)), Last(actions));
    }
    var ends := Acts(EMPTY, actions).ends;
    forall s: Side, i: Id | (s, i) in ends && ends[(s, i)].state == ConnOpen
      ensures Agrees(ends, s, i)
    {
    }
  }

  // ---------- when a translated message is accepted ----------

  /** The end that a relayed end names exists on the receiving chain and is in this state. */
  ghost predicate Targets(ends: Ends, f: InFlight, state: ConnectionState) {
    && f.shown.counterpartyConnection.Some?
    && (f.to, f.shown.counterpartyConnection.value) in ends
    && ends[(f.to, f.shown.counterpartyConnection.value)].state == state
  }

  /** A translated OpenTry was made from an Init end and names its clients; it needs a fresh identifier
      and an offered version. A translated OpenAck was made from a TryOpen end, and OpenConfirm from an
      open one; the end that it names is still Init, or TryOpen. */
  ghost predicate Acceptable(ends: Ends, f: InFlight, newId: Id, version: Id) {
    match f.msg
    case ConnOpenTry(_, _, client, _, _, _, _) =>
      f.shown.state == ConnInit && client == f.shown.clientId && (f.to, newId) !in ends && version in f.shown.versions
    case ConnOpenAck(_, _, _, _) => f.shown.state == ConnTryOpen && Targets(ends, f, ConnInit)
    case ConnOpenConfirm(_, _) => f.shown.state == ConnOpen && Targets(ends, f, ConnTryOpen)
    case _ => false
  }

  ghost predicate Accepted(ends: Ends, f: InFlight, newId: Id, version: Id) {
    TryAccepted(ends, f, newId, version) || AckAccepted(ends, f) || ConfirmAccepted(ends, f)
  }

  lemma AcceptedIff(ends: Ends, f: InFlight, newId: Id, version: Id)
    requires forall s: Side, i: Id :: (s, i) in ends ==> Agrees(ends, s, i)
    requires Backed(ends, f) && Faithful(f)
    ensures Accepted(ends, f, newId, version) <==> Acceptable(ends, f, newId, version)
  {
    assert Agrees(ends, f.to.Other(), f.provenId) && f.to.Other().Other() == f.to;
  }

  /** In every reachable state, a message that was translated at any earlier time is accepted exactly
      when the end it was made from had the right state and the end it names still has. */
  lemma ArrivalAcceptedIff(actions: seq<Action>, f: InFlight, newId: Id, version: Id)
    requires f in Acts(EMPTY, actions).flying
    ensures var ends := Acts(EMPTY, actions).ends;
            Accepted(ends, f, newId, version) <==> Acceptable(ends, f, newId, version)
  {
    OpenEndsAgree(actions);
    AcceptedIff(Acts(EMPTY, actions).ends, f, newId, version);
  }

  /** The event that announces an end of this state. */
  function Announcement(id: Id, end: ConnectionEnd): Event {
    match end.state
    case ConnInit => OpenInitConnection(Some(id), end.clientId)
    case ConnTryOpen => OpenTryConnection(Some(id), end.clientId)
    case ConnOpen => OpenAckConnection(Some(id), end.clientId)
  }

  /** In every reachable state, the announcement of any end is translated when the source answers. The
      message is accepted, for an Init end, exactly for a fresh identifier and an offered version; for a
      TryOpen end, exactly when the end it names is still Init; for an open end, exactly when the end it
      names is TryOpen. */
  lemma AnnouncedEndAcceptedIff(actions: seq<Action>, side: Side, id: Id, view: ChainView, at: Height, newId: Id,
                                version: Id)
    requires (side, id) in Acts(EMPTY, actions).ends
    requires Answers(view, at, id, Acts(EMPTY, actions).ends[(side, id)])
    ensures var ends, to := Acts(EMPTY, actions).ends, side.Other();
            var end := ends[(side, id)];
            var f := Translated(view, at, Announcement(id, end), to, id, end);
            && f.Some?
            && (Accepted(ends, f.value, newId, version) <==>
                  match end.state
                  case ConnInit => (to, newId) !in ends && version in end.versions
                  case ConnTryOpen => Targets(ends, f.value, ConnInit)
                  case ConnOpen => Targets(ends, f.value, ConnTryOpen))
  {
    OpenEndsAgree(actions);
    var ends := Acts(EMPTY, actions).ends;
    var end := ends[(side, id)];
    assert Agrees(ends, side, id) && side.Other().Other() == side;
    var f := Translated(view, at, Announcement(id, end), side.Other(), id, end);
    AnnouncementTranslates(view, at, id, end);
    TranslatedFromAnswer(view, at, Announcement(id, end));
    AcceptedIff(ends, f.value, newId, version);
  }

  lemma AnnouncementTranslates(view: ChainView, at: Height, id: Id, end: ConnectionEnd)
    requires Answers(view, at, id, end)
    requires end.state != ConnInit ==> end.counterpartyConnection.Some? && end.versions != []
    ensures var r := Translate(view, EventAt(Announcement(id, end), at));
            && r.Ok? && r.value.Some?
            && match end.state
               case ConnInit => r.value.value.ConnOpenTry? && r.value.value.counterpartyClient == end.clientId
               case ConnTryOpen => r.value.value.ConnOpenAck?
               case ConnOpen => r.value.value.ConnOpenConfirm?
  {
  }

  // ---------- three translations open a connection ----------

  /** The answers that a translation needs: the end with a usable proof height, and the client state
      and consensus state that vouch for the other chain. */
  ghost predicate Answers(view: ChainView, at: Height, id: Id, end: ConnectionEnd) {
    && (at, id) in view.connections && view.connections[(at, id)].end == Some(end)
    && view.connections[(at, id)].proofHeight.Some? && view.connections[(at, id)].proofHeight.value.height > 0
    && ClientProof(view, at, end.clientId).Ok?
  }

  /** The end that OpenTry stores for an Init end `id`, and what that end becomes after OpenAck. */
  function TryEnd(init: ConnectionEnd, id: Id, version: Id): ConnectionEnd {
    ConnectionEnd(ConnTryOpen, init.counterpartyClient, init.clientId, Some(id), [version], init.delay)
  }

  function AckEnd(init: ConnectionEnd, newId: Id, version: Id): ConnectionEnd {
    init.(state := ConnOpen, counterpartyConnection := Some(newId), versions := [version])
  }

  /** What arrives at `to` when the event is translated from an answer that shows `shown`. */
  ghost function Translated(view: ChainView, at: Height, event: Event, to: Side, id: Id,
                            shown: ConnectionEnd): Option<InFlight> {
    var m := Translate(view, EventAt(event, at));
    if m.Ok? && m.value.Some? then Some(InFlight(to, m.value.value, id, shown)) else None
  }

  ghost predicate BothOpen(ends: Ends, side: Side, id: Id, newId: Id) {
    && (side, id) in ends && (side.Other(), newId) in ends
    && var here, there := ends[(side, id)], ends[(side.Other(), newId)];
    && here.state == ConnOpen && there.state == ConnOpen
    && here.counterpartyConnection == Some(newId) && there.counterpartyConnection == Some(id)
    && Matching(here, there) && here.versions == there.versions
  }

  /** From an Init end, the relayer's three translations are each accepted by the chain they are sent
      to. Both ends are then open, each naming the other's connection and client. */
  lemma ThreeTranslationsOpen(ends: Ends, side: Side, id: Id, newId: Id, version: Id,
                              view1: ChainView, at1: Height, view2: ChainView, at2: Height,
                              view3: ChainView, at3: Height)
    requires (side, id) in ends && ends[(side, id)].state == ConnInit && ends[(side, id)].counterpartyConnection == None
    requires (side.Other(), newId) !in ends && version in ends[(side, id)].versions
    requires Answers(view1, at1, id, ends[(side, id)])
    requires Answers(view2, at2, newId, TryEnd(ends[(side, id)], id, version))
    requires Answers(view3, at3, id, AckEnd(ends[(side, id)], newId, version))
    ensures var init := ends[(side, id)];
            var tried, acked := TryEnd(init, id, version), AckEnd(init, newId, version);
            var f1 := Translated(view1, at1, OpenInitConnection(Some(id), init.clientId), side.Other(), id, init);
            var f2 := Translated(view2, at2, OpenTryConnection(Some(newId), tried.clientId), side, newId, tried);
            var f3 := Translated(view3, at3, OpenAckConnection(Some(id), init.clientId), side.Other(), id, acked);
            && f1.Some? && f2.Some? && f3.Some?
            && var ends1 := Deliver(ends, f1.value, newId, version);
            && var ends2 := Deliver(ends1, f2.value, newId, version);
            && ends1 == ends[(side.Other(), newId) := tried]
            && ends2 == ends1[(side, id) := acked]
            && BothOpen(Deliver(ends2, f3.value, newId, version), side, id, newId)
  {
    var init := ends[(side, id)];
    var tried, acked := TryEnd(init, id, version), AckEnd(init, newId, version);
    assert side.Other() != side;
    InitTranslates(view1, at1, id, init);
    TryTranslates(view2, at2, newId, id, tried);
    AckTranslates(view3, at3, id, newId, acked);
    var f1 := Translated(view1, at1, OpenInitConnection(Some(id), init.clientId), side.Other(), id, init).value;
    assert TryAccepted(ends, f1, newId, version);
    var ends1 := Deliver(ends, f1, newId, version);
    var f2 := Translated(view2, at2, OpenTryConnection(Some(newId), tried.clientId), side, newId, tried).value;
    assert AckAccepted(ends1, f2);
    var ends2 := Deliver(ends1, f2, newId, version);
    var f3 := Translated(view3, at3, OpenAckConnection(Some(id), init.clientId), side.Other(), id, acked).value;
    assert ConfirmAccepted(ends2, f3);
  }

  lemma InitTranslates(view: ChainView, at: Height, id: Id, end: ConnectionEnd)
    requires Answers(view, at, id, end)
    ensures var r := Translate(view, EventAt(OpenInitConnection(Some(id), end.clientId), at));
            && r.Ok? && r.value.Some? && r.value.value.ConnOpenTry?
            && var m := r.value.value;
            && m.client == end.counterpartyClient && m.counterpartyClient == end.clientId
               && m.counterpartyConnection == id
            && m.versions == end.versions && m.delay == end.delay
  {
  }

  lemma TryTranslates(view: ChainView, at: Height, id: Id, target: Id, end: ConnectionEnd)
    requires Answers(view, at, id, end) && end.counterpartyConnection == Some(target) && end.versions != []
    ensures var r := Translate(view, EventAt(OpenTryConnection(Some(id), end.clientId), at));
            && r.Ok? && r.value.Some? && r.value.value.ConnOpenAck?
            && r.value.value.connection == target && r.value.value.counterpartyId == id
               && r.value.value.chosen == end.versions[0]
  {
  }

  lemma AckTranslates(view: ChainView, at: Height, id: Id, target: Id, end: ConnectionEnd)
    requires Answers(view, at, id, end) && end.counterpartyConnection == Some(target)
    ensures var r := Translate(view, EventAt(OpenAckConnection(Some(id), end.clientId), at));
            && r.Ok? && r.value.Some? && r.value.value.ConnOpenConfirm? && r.value.value.connection == target
  {
  }
}
