/** The sorter's output as a sequence of segments, one for each channel. */
module Segments {
  import opened Ibc
  import opened Lists
  import opened Sorter

  /** What a segment has to look like: its channel, its receives, its acknowledgements, its timeouts. */
  type Shape = (ChannelKey, seq<Msg>, seq<Msg>, seq<Msg>) -> bool

  /** Where the messages of each channel begin: its receives, its acknowledgements, its timeouts. */
  datatype Cuts = Cuts(receives: seq<nat>, acks: seq<nat>, timeouts: seq<nat>)

  /** The cuts split the output into one segment for each whitelisted channel, in order and without rest. */
  ghost predicate SplitsInto(shape: Shape, keys: seq<ChannelKey>, sorted: Sorted, cuts: Cuts) {
    && |cuts.receives| == |cuts.timeouts| == |keys| + 1 && |cuts.acks| == |keys|
    && cuts.receives[0] == 0 && cuts.receives[|keys|] == |sorted.ready|
    && cuts.timeouts[0] == 0 && cuts.timeouts[|keys|] == |sorted.timeouts|
    && forall i :: 0 <= i < |keys| ==> SegmentAt(shape, keys[i], sorted, cuts, i)
  }

  ghost predicate SegmentAt(shape: Shape, key: ChannelKey, sorted: Sorted, cuts: Cuts, i: nat)
    requires i + 1 < |cuts.receives| && i < |cuts.acks| && i + 1 < |cuts.timeouts|
  {
    && cuts.receives[i] <= cuts.acks[i] <= cuts.receives[i + 1] <= |sorted.ready|
    && cuts.timeouts[i] <= cuts.timeouts[i + 1] <= |sorted.timeouts|
    && shape(key, sorted.ready[cuts.receives[i]..cuts.acks[i]],
               sorted.ready[cuts.acks[i]..cuts.receives[i + 1]],
               sorted.timeouts[cuts.timeouts[i]..cuts.timeouts[i + 1]])
  }

  lemma AddSegment(shape: Shape, keys: seq<ChannelKey>, sorted: Sorted, before: Cuts,
                   receives: seq<Msg>, acks: seq<Msg>, timeouts: seq<Msg>) returns (cuts: Cuts)
    requires keys != [] && SplitsInto(shape, Front(keys), sorted, before)
    requires shape(Last(keys), receives, acks, timeouts)
    ensures SplitsInto(shape, keys, sorted.Then(Sorted(receives + acks, timeouts)), cuts)
  {
    var n := |keys| - 1;
    var all := sorted.Then(Sorted(receives + acks, timeouts));
    cuts := Cuts(before.receives + [|all.ready|], before.acks + [|sorted.ready| + |receives|],
                 before.timeouts + [|all.timeouts|]);
    forall i | 0 <= i < |keys|
      ensures SegmentAt(shape, keys[i], all, cuts, i)
    {
      if i < n {
        assert keys[i] == Front(keys)[i];
        SegmentKept(shape, keys[i], sorted, all, before, cuts, i);
      } else {
        SegmentAdded(shape, keys[n], sorted, receives, acks, timeouts, cuts, n);
      }
    }
  }

  /** More messages behind a segment leave it alone. */
  lemma SegmentKept(shape: Shape, key: ChannelKey, sorted: Sorted, all: Sorted, before: Cuts, cuts: Cuts, i: nat)
    requires i + 1 < |before.receives| && i < |before.acks| && i + 1 < |before.timeouts|
    requires SegmentAt(shape, key, sorted, before, i)
    requires sorted.ready <= all.ready && sorted.timeouts <= all.timeouts
    requires before.receives <= cuts.receives && before.acks <= cuts.acks && before.timeouts <= cuts.timeouts
    ensures SegmentAt(shape, key, all, cuts, i)
  {
    PrefixSlice(sorted.ready, all.ready, before.receives[i], before.acks[i]);
    PrefixSlice(sorted.ready, all.ready, before.acks[i], before.receives[i + 1]);
    PrefixSlice(sorted.timeouts, all.timeouts, before.timeouts[i], before.timeouts[i + 1]);
  }

  lemma SegmentAdded(shape: Shape, key: ChannelKey, sorted: Sorted, receives: seq<Msg>, acks: seq<Msg>,
                     timeouts: seq<Msg>, cuts: Cuts, n: nat)
    requires shape(key, receives, acks, timeouts)
    requires n + 1 < |cuts.receives| && n < |cuts.acks| && n + 1 < |cuts.timeouts|
    requires cuts.receives[n] == |sorted.ready| && cuts.acks[n] == |sorted.ready| + |receives|
    requires cuts.receives[n + 1] == cuts.acks[n] + |acks|
    requires cuts.timeouts[n] == |sorted.timeouts| && cuts.timeouts[n + 1] == |sorted.timeouts| + |timeouts|
    ensures SegmentAt(shape, key, sorted.Then(Sorted(receives + acks, timeouts)), cuts, n)
  {
    AppendedSlices(sorted.ready, receives, acks);
    AppendedSlices(sorted.timeouts, timeouts, []);
    assert timeouts + [] == timeouts;
  }
}
