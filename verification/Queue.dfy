/** Sending a batch of messages to a chain, split when it is too heavy for one transaction. */
module Queue {
  import opened Ibc
  import opened Lists
  import opened Wire
  import opened Weight

  /** The batches that one flush gets accepted, in order, and whether all went through. */
  datatype Flushed<T> = Flushed(batches: seq<seq<T>>, result: Result<()>)

  /** A chain as the queue uses it: it accepts or refuses transactions. */
  class Sink<T> {
    const maxWeight: nat
    var accepted: seq<seq<T>>

    constructor (maxWeight: nat)
      ensures this.maxWeight == maxWeight && accepted == []
    {
      this.maxWeight := maxWeight;
      accepted := [];
    }

    /** Submits one transaction; `verdict` is the chain's answer. */
    method Submit(messages: seq<T>, verdict: bool) returns (r: Result<()>)
      modifies this
      ensures r == if verdict then Ok(()) else Err(SubmitFailed)
      ensures accepted == if verdict then old(accepted) + [messages] else old(accepted)
    {
      if !verdict {
        return Err(SubmitFailed);
      }
      accepted := accepted + [messages];
      return Ok(());
    }
  }

  /** The size of each chunk for a batch that is `ratio` times as heavy as the limit. */
  function ChunkSize(ratio: nat): (r: nat)
    requires ratio > 0
    ensures r >= 2
  {
    if ratio == 1 then ratio * 2 else ratio + 2
  }

  function Chunks<T>(messages: seq<T>, size: nat): seq<seq<T>>
    requires size > 0
  {
    if messages == [] then []
    else if |messages| <= size then [messages]
    else [messages[..size]] + Chunks(messages[size..], size)
  }

  function Flatten<T>(batches: seq<seq<T>>): seq<T> {
    if batches == [] then [] else Flatten(Front(batches)) + Last(batches)
  }

  /** How many of the first `n` submissions go through before one is refused. */
  function AcceptedCount(n: nat, verdicts: nat -> bool): (r: nat)
    ensures r <= n
  {
    if n == 0 then 0
    else
      var before := AcceptedCount(n - 1, verdicts);
      if before == n - 1 && verdicts(n - 1) then n else before
  }

  /** The transactions a batch is sent as, or the error that keeps it from being sent: the weight
      estimate may fail, and a limit of zero makes the division abort. */
  function Plan<T>(messages: seq<T>, weight: Result<nat>, maxWeight: nat): Result<seq<seq<T>>> {
    var batchWeight :- weight;
    if maxWeight == 0 then Err(Panic)
    else
      var ratio := batchWeight / maxWeight;
      if ratio == 0 then Ok([messages]) else Ok(Chunks(messages, ChunkSize(ratio)))
  }

  function Flush<T>(messages: seq<T>, weight: Result<nat>, maxWeight: nat, verdicts: nat -> bool): Flushed<T> {
    match Plan(messages, weight, maxWeight)
    case Err(e) => Flushed([], Err(e))
    case Ok(batches) =>
      var n := AcceptedCount(|batches|, verdicts);
      Flushed(batches[..n], if n == |batches| then Ok(()) else Err(SubmitFailed))
  }

  /** `weight` is the sink's estimate for the batch and `verdicts(k)` its answer to the k-th
      submission of this call. */
  method FlushMessageBatch<T>(messages: seq<T>, weight: Result<nat>, sink: Sink<T>, verdicts: nat -> bool)
    returns (r: Result<()>)
    modifies sink
    ensures r == Flush(messages, weight, sink.maxWeight, verdicts).result
    ensures sink.accepted == old(sink.accepted) + Flush(messages, weight, sink.maxWeight, verdicts).batches
  {
    if weight.Err? {
      return Err(weight.error);
    }
    if sink.maxWeight == 0 {
      return Err(Panic);
    }
    var ratio := weight.value / sink.maxWeight;
    if ratio == 0 {
      r := sink.Submit(messages, verdicts(0));
      assert AcceptedCount(1, verdicts) == if verdicts(0) then 1 else 0;
      return r;
    }
    var batches := Chunks(messages, ChunkSize(ratio));
    for i := 0 to |batches|
      invariant AcceptedCount(i, verdicts) == i
      invariant sink.accepted == old(sink.accepted) + batches[..i]
    {
      r := sink.Submit(batches[i], verdicts(i));
      if r.Err? {
        StopsAt(i, |batches|, verdicts);
        return r;
      }
    }
    assert batches[..|batches|] == batches;
    return Ok(());
  }

  lemma {:induction false} StopsAt(i: nat, n: nat, verdicts: nat -> bool)
    requires i < n && AcceptedCount(i, verdicts) == i && !verdicts(i)
    ensures AcceptedCount(n, verdicts) == i
  {
    if n > i + 1 {
      StopsAt(i, n - 1, verdicts);
    }
  }

  // ---------- nothing is lost, repeated or reordered ----------

  lemma {:induction false} FlattenAppend<T>(a: seq<seq<T>>, b: seq<seq<T>>)
    ensures Flatten(a + b) == Flatten(a) + Flatten(b)
  {
    if b == [] {
      assert a + b == a;
    } else {
      assert Front(a + b) == a + Front(b) && Last(a + b) == Last(b);
      FlattenAppend(a, Front(b));
      calc {
        Flatten(a + b);
        Flatten(a + Front(b)) + Last(b);
        (Flatten(a) + Flatten(Front(b))) + Last(b);
        Flatten(a) + (Flatten(Front(b)) + Last(b));
      }
    }
  }

  lemma {:induction false} ChunksFlatten<T>(messages: seq<T>, size: nat)
    requires size > 0
    ensures Flatten(Chunks(messages, size)) == messages
  {
    if 0 < |messages| <= size {
      assert Flatten([messages]) == Flatten([]) + messages;
    } else if |messages| > size {
      ChunksFlatten(messages[size..], size);
      FlattenAppend([messages[..size]], Chunks(messages[size..], size));
      assert Flatten([messages[..size]]) == Flatten([]) + messages[..size];
    }
  }

  /** Every chunk but the last is full, and the last one is not empty. */
  lemma {:induction false} ChunkSizes<T>(messages: seq<T>, size: nat)
    requires size > 0
    ensures forall i :: 0 <= i < |Chunks(messages, size)| ==> 1 <= |Chunks(messages, size)[i]| <= size
    ensures forall i :: 0 <= i < |Chunks(messages, size)| - 1 ==> |Chunks(messages, size)[i]| == size
    ensures messages != [] ==> (|Chunks(messages, size)| - 1) * size < |messages|
    ensures |messages| <= |Chunks(messages, size)| * size
  {
    if |messages| > size {
      ChunkSizes(messages[size..], size);
      var n := |Chunks(messages[size..], size)|;
      assert |Chunks(messages, size)| == n + 1;
      assert (n + 1) * size == n * size + size && (n - 1) * size == n * size - size;
    }
  }

  /** What a flush delivers is a prefix of the batch, in order; it is the whole batch when the flush
      succeeds, and on failure a whole number of transactions is missing at the end. */
  lemma FlushConserves<T>(messages: seq<T>, weight: Result<nat>, maxWeight: nat, verdicts: nat -> bool)
    ensures Flatten(Flush(messages, weight, maxWeight, verdicts).batches) <= messages
    ensures Flush(messages, weight, maxWeight, verdicts).result.Ok? ==>
              Flatten(Flush(messages, weight, maxWeight, verdicts).batches) == messages
    ensures Plan(messages, weight, maxWeight).Ok? ==>
              var n := AcceptedCount(|Plan(messages, weight, maxWeight).value|, verdicts);
              && Flush(messages, weight, maxWeight, verdicts).batches == Plan(messages, weight, maxWeight).value[..n]
              && (Flush(messages, weight, maxWeight, verdicts).result.Err? ==>
                n < |Plan(messages, weight, maxWeight).value| && !verdicts(n))
  {
    match Plan(messages, weight, maxWeight) {
      case Err(_) =>
      case Ok(batches) =>
        PlanWhole(messages, weight, maxWeight);
        var n := AcceptedCount(|batches|, verdicts);
        AcceptedMeaning(|batches|, verdicts);
        FlattenAppend(batches[..n], batches[n..]);
        assert batches[..n] + batches[n..] == batches;
        assert n == |batches| ==> batches[..n] == batches;
    }
  }

  /** When only a part of a batch is delivered: the batch is split, the first chunk is accepted, and a
      later one is refused. The flush succeeds exactly when the whole batch is delivered. */
  lemma CutShortIff<T>(messages: seq<T>, weight: Result<nat>, maxWeight: nat, verdicts: nat -> bool)
    requires messages != []
    ensures var flushed := Flush(messages, weight, maxWeight, verdicts);
            && (flushed.result.Ok? <==> Flatten(flushed.batches) == messages)
            && (flushed.batches != [] && flushed.result.Err? <==>
                  && Plan(messages, weight, maxWeight).Ok? && verdicts(0)
                  && exists k :: 0 < k < |Plan(messages, weight, maxWeight).value| && !verdicts(k))
  {
    match Plan(messages, weight, maxWeight) {
      case Err(_) =>
      case Ok(batches) =>
        PlanWhole(messages, weight, maxWeight);
        NoEmptyBatch(messages, weight, maxWeight);
        AcceptedMeaning(|batches|, verdicts);
        PartIsShorter(batches, AcceptedCount(|batches|, verdicts));
    }
  }

  /** Leaving out batches that are not empty leaves out messages. */
  lemma PartIsShorter<T>(batches: seq<seq<T>>, n: nat)
    requires n <= |batches| && forall i :: 0 <= i < |batches| ==> batches[i] != []
    ensures Flatten(batches[..n]) == Flatten(batches) <==> n == |batches|
  {
    assert batches[..n] + batches[n..] == batches;
    FlattenAppend(batches[..n], batches[n..]);
    if n < |batches| {
      assert Last(batches[n..]) == batches[|batches| - 1];
    }
  }

  lemma NoEmptyBatch<T>(messages: seq<T>, weight: Result<nat>, maxWeight: nat)
    requires messages != [] && Plan(messages, weight, maxWeight).Ok?
    ensures forall i :: 0 <= i < |Plan(messages, weight, maxWeight).value| ==>
                          Plan(messages, weight, maxWeight).value[i] != []
  {
    var ratio := weight.value / maxWeight;
    if ratio > 0 {
      ChunkSizes(messages, ChunkSize(ratio));
    }
  }

  /** The submissions up to the first refusal are those that go through. */
  lemma {:induction false} AcceptedMeaning(n: nat, verdicts: nat -> bool)
    ensures var m := AcceptedCount(n, verdicts);
            (forall k :: 0 <= k < m ==> verdicts(k)) && (m < n ==> !verdicts(m))
  {
    if n > 0 {
      AcceptedMeaning(n - 1, verdicts);
    }
  }

  lemma PlanWhole<T>(messages: seq<T>, weight: Result<nat>, maxWeight: nat)
    requires Plan(messages, weight, maxWeight).Ok?
    ensures var batches := Plan(messages, weight, maxWeight).value;
            && Flatten(batches) == messages
            && (messages != [] ==> batches != [] && batches[0] != [] && batches[0][0] == messages[0])
  {
    var ratio := weight.value / maxWeight;
    if ratio == 0 {
      assert Flatten([messages]) == Flatten([]) + messages;
    } else {
      ChunksFlatten(messages, ChunkSize(ratio));
      ChunkSizes(messages, ChunkSize(ratio));
    }
  }

  /** How a batch is planned: not at all when its weight is unknown or the limit is zero; as one
      transaction below the limit; otherwise in chunks of two messages when it is less than twice as
      heavy as the limit, and of k + 2 messages when it is k times as heavy, rounded down. */
  lemma PlanMeaning<T>(messages: seq<T>, weight: Result<nat>, maxWeight: nat)
    ensures forall e :: Plan(messages, weight, maxWeight) == Err(e) <==>
              weight == Err(e) || (weight.Ok? && maxWeight == 0 && e == Panic)
    ensures weight.Ok? && weight.value < maxWeight ==> Plan(messages, weight, maxWeight) == Ok([messages])
    ensures forall k: nat :: weight.Ok? && maxWeight > 0 && k > 0 && Times(weight.value, maxWeight, k) ==>
              Plan(messages, weight, maxWeight) == Ok(Chunks(messages, if k == 1 then 2 else k + 2))
  {
    if weight.Ok? && maxWeight > 0 {
      forall k: nat | Times(weight.value, maxWeight, k)
        ensures weight.value / maxWeight == k
      {
        QuotientIs(weight.value, maxWeight, k);
      }
    }
  }

  ghost predicate Times(weight: nat, limit: nat, k: nat) {
    k * limit <= weight < (k + 1) * limit
  }

  lemma TimesMonotone(a: nat, b: nat, d: nat)
    requires a <= b
    ensures a * d <= b * d
  {
  }

  lemma QuotientIs(n: nat, d: nat, k: nat)
    requires d > 0 && k * d <= n < (k + 1) * d
    ensures n / d == k
  {
    var q := n / d;
    assert q * d <= n < (q + 1) * d;
    if q < k {
      TimesMonotone(q + 1, k, d);
    } else if q > k {
      TimesMonotone(k + 1, q, d);
    }
  }

  /** A flush succeeds exactly when every planned transaction is accepted. It fails with the planning
      error, or because the sink refused a transaction. */
  lemma FlushOutcome<T>(messages: seq<T>, weight: Result<nat>, maxWeight: nat, verdicts: nat -> bool)
    ensures var plan, result := Plan(messages, weight, maxWeight), Flush(messages, weight, maxWeight, verdicts).result;
            && (result.Ok? <==> plan.Ok? && forall k :: 0 <= k < |plan.value| ==> verdicts(k))
            && forall e :: result == Err(e) <==>
                 || plan == Err(e)
                 || (e == SubmitFailed && plan.Ok? && exists k :: 0 <= k < |plan.value| && !verdicts(k))
  {
    var plan := Plan(messages, weight, maxWeight);
    if plan.Ok? {
      AcceptedMeaning(|plan.value|, verdicts);
    }
  }

  /** The first message of a batch, where the relayer puts the client update, is delivered before or
      with every other: something is delivered only if that message is. */
  lemma FirstMessageFirst<T>(messages: seq<T>, weight: Result<nat>, maxWeight: nat, verdicts: nat -> bool)
    requires messages != []
    ensures var batches := Flush(messages, weight, maxWeight, verdicts).batches;
            batches != [] ==> batches[0] != [] && batches[0][0] == messages[0] && Flatten(batches) != []
  {
    var batches := Flush(messages, weight, maxWeight, verdicts).batches;
    if batches != [] {
      PlanWhole(messages, weight, maxWeight);
      FlushConserves(messages, weight, maxWeight, verdicts);
      FlattenAppend([batches[0]], batches[1..]);
      assert [batches[0]] + batches[1..] == batches;
      assert Flatten([batches[0]]) == Flatten([]) + batches[0];
    }
  }

  /** The value used as a chunk size is also announced as the number of chunks. It is that number
      exactly for batches between these bounds. */
  lemma ChunkCountAsAnnounced<T>(messages: seq<T>, size: nat)
    requires size > 0
    ensures |Chunks(messages, size)| == size <==> (size - 1) * size < |messages| <= size * size
  {
    ChunkSizes(messages, size);
    BoundsFixCount(|messages|, |Chunks(messages, size)|, size);
  }

  lemma BoundsFixCount(length: nat, n: nat, size: nat)
    requires size > 0 && length <= n * size && (length > 0 ==> (n - 1) * size < length)
    requires length == 0 ==> n == 0
    ensures n == size <==> (size - 1) * size < length <= size * size
  {
  }

  /** The messages in the form in which the estimate measures them. */
  function Encoded<T>(messages: seq<T>, encode: T -> Any): (r: seq<Any>)
    ensures |r| == |messages|
  {
    seq(|messages|, i requires 0 <= i < |messages| => encode(messages[i]))
  }

  /** With the transaction size as both estimate and limit, a batch that is not empty is never split:
      it goes out as one transaction, or nothing of it does. */
  lemma EstimatedBatchIsOneTransaction<T>(messages: seq<T>, encode: T -> Any, signer: Signer, maxTxSize: nat,
                                          verdicts: nat -> bool)
    requires signer.FixedLength() && messages != []
    ensures var wire := Encoded(messages, encode);
            var flushed := Flush(messages, Estimate(signer, wire, maxTxSize), maxTxSize, verdicts);
            && flushed.batches == (if Fits(signer, wire, maxTxSize) && verdicts(0) then [messages] else [])
            && (flushed.result.Ok? <==> Fits(signer, wire, maxTxSize) && verdicts(0))
  {
    var wire := Encoded(messages, encode);
    if Fits(signer, wire, maxTxSize) {
      AcceptedIsLight(signer, wire, maxTxSize);
      LightIsOneTransaction(messages, Estimate(signer, wire, maxTxSize).value, maxTxSize, verdicts);
    }
  }

  lemma LightIsOneTransaction<T>(messages: seq<T>, weight: nat, maxWeight: nat, verdicts: nat -> bool)
    requires weight < maxWeight
    ensures Flush(messages, Ok(weight), maxWeight, verdicts)
         == if verdicts(0) then Flushed([messages], Ok(())) else Flushed([], Err(SubmitFailed))
  {
  }
}
