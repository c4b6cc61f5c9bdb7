/** Vocabulary shared by the relayer's components: results, heights, channel and connection ends,
    packets, events, messages, and the answers a chain gives to the relayer's queries. */
module Ibc {

  datatype Option<+T> = None | Some(value: T)

  /** `Panic` stands for an `expect`, an `unwrap` or a checked subtraction that aborts the process. */
  datatype Error =
    | QueryFailed
    | NotFound
    | MissingConnection
    | MissingCounterparty
    | MissingProofHeight
    | MissingVersion
    | InvalidHeight
    | TimestampOverflow
    | TooManyMessages
    | SubmitFailed
    | Panic

  datatype Result<+T> = Ok(value: T) | Err(error: Error) {
    predicate IsFailure() {
      Err?
    }

    function PropagateFailure<U>(): Result<U>
      requires Err?
    {
      Err(error)
    }

    function Extract(): T
      requires Ok?
    {
      value
    }
  }

  type Id = string
  newtype byte = b: int | 0 <= b < 256

  type Bytes = seq<byte>

  /** A height as it travels in a protobuf answer: the block number may still be zero. */
  datatype RawHeight = Height(number: nat, height: nat) {
    /** Heights are ordered by revision number first. */
    predicate AtMost(other: RawHeight) {
      number < other.number || (number == other.number && height <= other.height)
    }

    predicate Below(other: RawHeight) {
      !other.AtMost(this)
    }

    function Plus(blocks: nat): RawHeight {
      Height(number, height + blocks)
    }
  }

  type Height = h: RawHeight | h.height > 0 witness Height(0, 1)

  function NewHeight(number: nat, height: nat): Result<Height> {
    if height == 0 then Err(InvalidHeight) else Ok(Height(number, height))
  }

  datatype ChannelState = ChanInit | ChanTryOpen | ChanOpen | ChanClosed

  datatype Ordering = NoOrder | Unordered | Ordered

  datatype ChannelKey = ChannelKey(channel: Id, port: Id)

  datatype ChannelEnd = ChannelEnd(
    state: ChannelState,
    ordering: Ordering,
    counterpartyPort: Id,
    counterpartyChannel: Option<Id>,
    hops: seq<Id>,
    version: Id)

  datatype ConnectionState = ConnInit | ConnTryOpen | ConnOpen

  datatype ConnectionEnd = ConnectionEnd(
    state: ConnectionState,
    clientId: Id,
    counterpartyClient: Id,
    counterpartyConnection: Option<Id>,
    versions: seq<Id>,
    delay: nat)

  datatype TimeoutHeight = Never | At(height: Height)

  /** `timeoutTime` is in nanoseconds; zero means that no timestamp timeout was set. */
  datatype Packet = Packet(
    sequence: nat,
    source: ChannelKey,
    destination: ChannelKey,
    data: Bytes,
    timeoutHeight: TimeoutHeight,
    timeoutTime: nat)

  /** A packet with the block in which its event was emitted. */
  datatype PacketInfo = PacketInfo(height: nat, packet: Packet, ack: Option<Bytes>)

  datatype Event =
    | OpenInitConnection(connectionId: Option<Id>, clientId: Id)
    | OpenTryConnection(connectionId: Option<Id>, clientId: Id)
    | OpenAckConnection(connectionId: Option<Id>, clientId: Id)
    | OpenInitChannel(portId: Id, channelId: Option<Id>)
    | OpenTryChannel(portId: Id, channelId: Option<Id>)
    | OpenAckChannel(portId: Id, channelId: Option<Id>)
    | CloseInitChannel(portId: Id, closedId: Id)
    | SendPacket(sent: Packet)
    | WriteAcknowledgement(received: Packet, ack: Bytes)
    | OtherEvent(kind: Id)

  datatype EventAt = EventAt(event: Event, height: Height)

  /** Which store entry a timeout proof shows to be absent. */
  datatype AbsenceKey = NextSequenceKey(key: ChannelKey) | ReceiptKey(key: ChannelKey, sequence: nat)

  /** Messages keep their kind, identifiers and proof height; proof bytes and signers are opaque. */
  datatype Msg =
    | UpdateClient(client: Id, trusted: Height, header: Height)
    | ConnOpenTry(previous: Option<Id>, client: Id, counterpartyClient: Id, counterpartyConnection: Id,
                  versions: seq<Id>, delay: nat, proof: Height)
    | ConnOpenAck(connection: Id, counterpartyId: Id, chosen: Id, proof: Height)
    | ConnOpenConfirm(connection: Id, proof: Height)
    | ChanOpenTry(previousChannel: Option<Id>, port: Id, expected: ChannelEnd, counterpartyVersion: Id, proof: Height)
    | ChanOpenAck(port: Id, channel: Id, counterpartyChannel: Id, counterpartyVersion: Id, proof: Height)
    | ChanOpenConfirm(port: Id, channel: Id, proof: Height)
    | ChanCloseConfirm(port: Id, channel: Id, proof: Height)
    | RecvPacket(packet: Packet, proof: Height)
    | Acknowledgement(packet: Packet, ackBytes: Bytes, proof: Height)
    | Timeout(packet: Packet, nextSequence: nat, absent: AbsenceKey, proof: Height)
    | TimeoutOnClose(packet: Packet, nextSequence: nat, absent: AbsenceKey, proof: Height)

  /** What one lookup of a consensus state gives: nothing, bytes that do not decode, or a state. */
  datatype Consensus = Missing | Malformed | Stored(time: nat)

  datatype ChannelAnswer = ChannelAnswer(end: Option<ChannelEnd>, proofHeight: Option<RawHeight>)
  datatype ConnectionAnswer = ConnectionAnswer(end: Option<ConnectionEnd>, proofHeight: Option<RawHeight>)

  /** The answers one chain gives while it is queried; a key that is absent means that the query
      fails. `clientId` names this chain's light client on the other chain. */
  datatype ChainView = ChainView(
    height: Height,
    time: nat,
    blockTime: nat,
    clientId: Id,
    whitelist: seq<ChannelKey>,
    channels: map<(Height, ChannelKey), ChannelAnswer>,
    connections: map<(Height, Id), ConnectionAnswer>,
    clients: map<(Height, Id), Option<Height>>,
    consensus: map<(Id, Height), Consensus>,
    updates: map<(Id, Height), (Height, nat)>,
    blockTimes: map<nat, nat>,
    commitments: map<ChannelKey, seq<nat>>,
    acknowledgements: map<ChannelKey, seq<nat>>,
    receipts: map<ChannelKey, set<nat>>,
    nextReceive: map<ChannelKey, nat>,
    sent: map<(ChannelKey, nat), PacketInfo>,
    received: map<(ChannelKey, nat), PacketInfo>,
    packetProofs: map<(Height, ChannelKey, nat), Option<RawHeight>>,
    ackProofs: map<(Height, ChannelKey, nat), Option<RawHeight>>)
  {
    function Channel(at: Height, key: ChannelKey): Result<ChannelAnswer> {
      if (at, key) in channels then Ok(channels[(at, key)]) else Err(QueryFailed)
    }

    function ChannelEndAt(at: Height, key: ChannelKey): Result<ChannelEnd> {
      var answer :- Channel(at, key);
      if answer.end.None? then Err(NotFound) else Ok(answer.end.value)
    }

    function Connection(at: Height, id: Id): Result<ConnectionAnswer> {
      if (at, id) in connections then Ok(connections[(at, id)]) else Err(QueryFailed)
    }

    function ConnectionEndAt(at: Height, id: Id): Result<ConnectionEnd> {
      var answer :- Connection(at, id);
      if answer.end.None? then Err(NotFound) else Ok(answer.end.value)
    }

    /** The latest height of client `id` as this chain stored it at height `at`. */
    function ClientHeight(at: Height, id: Id): Result<Height> {
      if (at, id) !in clients then Err(QueryFailed)
      else if clients[(at, id)].None? then Err(NotFound)
      else Ok(clients[(at, id)].value)
    }

    /** The consensus states of client `id` for one revision number. */
    function ConsensusOf(id: Id, number: nat): nat -> Consensus {
      h => if h > 0 && (id, Height(number, h)) in consensus then consensus[(id, Height(number, h))] else Missing
    }
  }
}
