/** The search for the height at which a client holds a consensus state that a proof can use. */
module ProofSearch {
  import opened Ibc

  /** The consensus states of one client at one revision number; any height may be missing. */
  type Oracle = nat -> Consensus

  // ---------- linear search: existence only ----------

  function FirstStored(view: Oracle, start: nat, latest: nat): (r: Option<nat>)
    ensures r.Some? ==> start <= r.value <= latest && !view(r.value).Missing?
    decreases if start > latest then 0 else latest + 1 - start
  {
    if start > latest then None
    else if view(start).Missing? then FirstStored(view, start + 1, latest)
    else Some(start)
  }

  ghost predicate IsFirstStored(view: Oracle, start: nat, latest: nat, h: nat) {
    && start <= h <= latest
    && !view(h).Missing?
    && forall k :: start <= k < h ==> view(k).Missing?
  }

  lemma {:induction false} FirstStoredMeaning(view: Oracle, start: nat, latest: nat)
    ensures forall h: nat :: FirstStored(view, start, latest) == Some(h) <==> IsFirstStored(view, start, latest, h)
    ensures FirstStored(view, start, latest).None? <==> forall h :: start <= h <= latest ==> view(h).Missing?
    decreases if start > latest then 0 else latest + 1 - start
  {
    if start <= latest && view(start).Missing? {
      FirstStoredMeaning(view, start + 1, latest);
      forall h: nat
        ensures IsFirstStored(view, start, latest, h) <==> IsFirstStored(view, start + 1, latest, h)
      {
        assert IsFirstStored(view, start, latest, h) ==> h != start;
      }
    }
  }

  method LinearSearch(view: Oracle, start: nat, latest: nat) returns (r: Option<nat>)
    ensures r == FirstStored(view, start, latest)
    ensures forall h: nat :: r == Some(h) <==> IsFirstStored(view, start, latest, h)
    ensures r.None? <==> forall h :: start <= h <= latest ==> view(h).Missing?
  {
    FirstStoredMeaning(view, start, latest);
    var h := start;
    while h <= latest
      invariant start <= h
      invariant FirstStored(view, start, latest) == FirstStored(view, h, latest)
    {
      if !view(h).Missing? {
        return Some(h);
      }
      h := h + 1;
    }
    return None;
  }

  // ---------- timed search: bisection over an oracle with holes ----------

  /** What one run of the bisection does: the height it returns and how many consensus states it asks
      for. */
  datatype Trace = Trace(found: Option<nat>, probes: nat) {
    function Next(): Trace {
      Trace(found, probes + 1)
    }
  }

  /** The midpoint of a range, rounded down. */
  function Middle(start: nat, end: nat): (mid: nat)
    requires end - start > 1
    ensures start < mid < end
  {
    (end + start) / 2
  }

  function Bisect(view: Oracle, start: nat, end: nat, target: nat, known: Option<nat>): Trace
    requires start <= end
    decreases end - start
  {
    if end - start > 1 then
      var mid := Middle(start, end);
      match view(mid)
      case Missing => Bisect(view, start + 1, end, target, known).Next()
      case Malformed => Trace(None, 1)
      case Stored(time) =>
        if time < target then Bisect(view, mid + 1, end, target, known).Next()
        else Bisect(view, start, mid, target, Some(mid)).Next()
    else
      match view(start)
      case Missing => Trace(known, 1)
      case Malformed => Trace(None, 1)
      case Stored(time) => Trace(if time >= target then Some(start) else known, 1)
  }

  /** Whether the bisection steps over height `h` without looking at it. */
  ghost predicate SteppedOver(view: Oracle, start: nat, end: nat, target: nat, h: nat)
    requires start <= end
    decreases end - start
  {
    if end - start > 1 then
      var mid := Middle(start, end);
      match view(mid)
      case Missing => h == start || SteppedOver(view, start + 1, end, target, h)
      case Malformed => false
      case Stored(time) =>
        if time < target then SteppedOver(view, mid + 1, end, target, h) else SteppedOver(view, start, mid, target, h)
    else false
  }

  /** The value of the timed search for every input, a range that is empty included. */
  function Timed(view: Oracle, start: nat, latest: nat, target: nat): (r: Option<nat>)
    ensures r.Some? ==> start <= r.value <= latest && Reaches(view, target, r.value)
  {
    if start > latest then None
    else
      BisectSound(view, start, latest, target, None);
      Bisect(view, start, latest, target, None).found
  }

  method TimedSearch(view: Oracle, startHeight: nat, latest: nat, target: nat)
    returns (r: Option<nat>, ghost probes: nat)
    ensures r == Timed(view, startHeight, latest, target)
    ensures startHeight <= latest ==> probes == Bisect(view, startHeight, latest, target, None).probes
    ensures r.Some? ==> startHeight <= r.value <= latest && Reaches(view, target, r.value)
    ensures probes <= (if startHeight > latest then 0 else latest - startHeight + 1)
  {
    var start, end := startHeight, latest;
    var lastKnown: Option<nat> := None;
    probes := 0;
    if start > end {
      return None, 0;
    }
    ghost var whole := Bisect(view, start, end, target, None);
    BisectSound(view, start, end, target, None);
    ProbeBound(view, start, end, target, None);
    while end - start > 1
      invariant startHeight <= start <= end <= latest
      invariant Bisect(view, start, end, target, lastKnown).found == whole.found
      invariant probes + Bisect(view, start, end, target, lastKnown).probes == whole.probes
      decreases end - start
    {
      var mid := Middle(start, end);
      var answer := view(mid);
      probes := probes + 1;
      if answer.Missing? {
        start := start + 1;
        continue;
      }
      if answer.Malformed? {
        return None, probes;
      }
      if answer.time < target {
        start := mid + 1;
        continue;
      } else {
        lastKnown := Some(mid);
        end := mid;
      }
    }
    var answer := view(start);
    probes := probes + 1;
    if !answer.Missing? {
      if answer.Malformed? {
        return None, probes;
      }
      if answer.time >= target {
        return Some(start), probes;
      }
    }
    return lastKnown, probes;
  }

  ghost predicate Reaches(view: Oracle, target: nat, h: nat) {
    view(h).Stored? && view(h).time >= target
  }

  /** For any oracle, holes included, a height that is returned was seen to reach the target. */
  lemma {:induction false} BisectSound(view: Oracle, start: nat, end: nat, target: nat, known: Option<nat>)
    requires start <= end
    ensures var r := Bisect(view, start, end, target, known).found;
            r.Some? ==> r == known || (start <= r.value <= end && Reaches(view, target, r.value))
    decreases end - start
  {
    if end - start > 1 {
      var mid := Middle(start, end);
      if view(mid).Missing? {
        BisectSound(view, start + 1, end, target, known);
      } else if view(mid).Stored? {
        if view(mid).time < target {
          BisectSound(view, mid + 1, end, target, known);
        } else {
          BisectSound(view, start, mid, target, Some(mid));
        }
      }
    }
  }

  /** The heights that the bisection asks for. */
  ghost function Asked(view: Oracle, start: nat, end: nat, target: nat): set<nat>
    requires start <= end
    decreases end - start
  {
    if end - start > 1 then
      var mid := Middle(start, end);
      match view(mid)
      case Missing => {mid} + Asked(view, start + 1, end, target)
      case Malformed => {mid}
      case Stored(time) =>
        {mid} + if time < target then Asked(view, mid + 1, end, target) else Asked(view, start, mid, target)
    else {start}
  }

  /** A consensus state that does not decode ends the search with nothing, whatever was found before;
      and the search asks only for heights in range, one for each probe at most. */
  lemma {:induction false} MalformedEndsSearch(view: Oracle, start: nat, end: nat, target: nat, known: Option<nat>)
    requires start <= end
    ensures var trace, asked := Bisect(view, start, end, target, known), Asked(view, start, end, target);
            && (forall h :: h in asked ==> start <= h <= end)
            && |asked| <= trace.probes
            && ((exists h :: h in asked && view(h).Malformed?) ==> trace.found.None?)
            && (known.Some? && (forall h :: h in asked ==> !view(h).Malformed?) ==> trace.found.Some?)
    decreases end - start
  {
    if end - start > 1 {
      var mid := Middle(start, end);
      if view(mid).Missing? {
        MalformedEndsSearch(view, start + 1, end, target, known);
      } else if view(mid).Stored? {
        if view(mid).time < target {
          MalformedEndsSearch(view, mid + 1, end, target, known);
        } else {
          MalformedEndsSearch(view, start, mid, target, Some(mid));
        }
      }
    }
  }

  ghost function Log2(n: nat): nat {
    if n < 2 then 0 else 1 + Log2(n / 2)
  }

  lemma {:induction false} Log2Monotone(a: nat, b: nat)
    requires a <= b
    ensures Log2(a) <= Log2(b)
  {
    if a >= 2 {
      Log2Monotone(a / 2, b / 2);
    }
  }

  ghost predicate GapFree(view: Oracle, start: nat, end: nat) {
    forall h :: start <= h <= end ==> view(h).Stored?
  }

  /** At most one probe per height for any oracle. */
  lemma {:induction false} ProbeBound(view: Oracle, start: nat, end: nat, target: nat, known: Option<nat>)
    requires start <= end
    ensures Bisect(view, start, end, target, known).probes <= end - start + 1
    decreases end - start
  {
    if end - start > 1 {
      var mid := Middle(start, end);
      if view(mid).Missing? {
        ProbeBound(view, start + 1, end, target, known);
      } else if view(mid).Stored? {
        if view(mid).time < target {
          ProbeBound(view, mid + 1, end, target, known);
        } else {
          ProbeBound(view, start, mid, target, Some(mid));
        }
      }
    }
  }

  /** Without holes, logarithmically many probes. */
  lemma {:induction false} ProbeBoundGapFree(view: Oracle, start: nat, end: nat, target: nat, known: Option<nat>)
    requires start <= end && GapFree(view, start, end)
    ensures Bisect(view, start, end, target, known).probes <= Log2(end - start) + 1
    decreases end - start
  {
    if end - start > 1 {
      var mid := Middle(start, end);
      assert view(mid).Stored?;
      if view(mid).time < target {
        ProbeBoundGapFree(view, mid + 1, end, target, known);
        Log2Monotone(end - (mid + 1), (end - start) / 2);
      } else {
        ProbeBoundGapFree(view, start, mid, target, Some(mid));
        Log2Monotone(mid - start, (end - start) / 2);
      }
    }
  }

  // ---------- when the timed search returns the first suitable height ----------

  /** Later consensus states carry later times, and every stored one decodes. */
  ghost predicate Chronological(view: Oracle, start: nat, end: nat) {
    && (forall h :: start <= h <= end ==> !view(h).Malformed?)
    && (forall h, k :: start <= h <= k <= end && view(h).Stored? && view(k).Stored? ==> view(h).time <= view(k).time)
  }

  ghost predicate IsFirstReaching(view: Oracle, start: nat, end: nat, target: nat, h: nat) {
    && start <= h <= end
    && Reaches(view, target, h)
    && forall k :: start <= k < h ==> !Reaches(view, target, k)
  }

  /** `first` separates the stored states that reach the target from those that do not. */
  ghost predicate Separates(view: Oracle, start: nat, end: nat, target: nat, first: nat) {
    && start <= first <= end
    && view(first).Stored?
    && forall h :: start <= h <= end ==>
                     !view(h).Malformed? && (view(h).Stored? ==> (view(h).time < target <==> h < first))
  }

  lemma FirstSeparates(view: Oracle, start: nat, end: nat, target: nat, first: nat)
    requires Chronological(view, start, end) && IsFirstReaching(view, start, end, target, first)
    ensures Separates(view, start, end, target, first)
  {
    forall h | start <= h <= end && view(h).Stored?
      ensures view(h).time < target <==> h < first
    {
      if h < first {
        assert !Reaches(view, target, h);
      } else {
        assert view(first).Stored?;
      }
    }
  }

  /** Whether a bisection that only ever moves its lower end, from `distance` below `end`, finishes by
      probing `end` itself. It halves the distance at a stored midpoint and shortens it by one at a
      missing one. */
  ghost predicate LandsOn(view: Oracle, end: nat, distance: nat)
    requires distance <= end
  {
    if distance > 1 then
      LandsOn(view, end, if view(end - (distance + 1) / 2).Missing? then distance - 1 else (distance + 1) / 2 - 1)
    else distance == 0
  }

  /** In every state of the search, holes or not, a first suitable height that is known or lies below
      the upper end is returned exactly when no missing midpoint makes the search step over it. */
  lemma FoundIffNotSteppedOver(view: Oracle, start: nat, end: nat, target: nat, known: Option<nat>, first: nat)
    requires Separates(view, start, end, target, first)
    requires known.Some? ==> known.value >= end
    requires first == end ==> known == Some(end)
    ensures Bisect(view, start, end, target, known).found == Some(first) <==>
              !SteppedOver(view, start, end, target, first)
  {
    if SteppedOver(view, start, end, target, first) {
      SteppedOverNotFound(view, start, end, target, known, first);
    } else {
      NotSteppedOverFound(view, start, end, target, known, first);
    }
  }

  lemma {:induction false} SteppedOverNotFound(view: Oracle, start: nat, end: nat, target: nat, known: Option<nat>,
                                               first: nat)
    requires Separates(view, start, end, target, first) && SteppedOver(view, start, end, target, first)
    requires known.Some? ==> known.value >= end
    ensures Bisect(view, start, end, target, known).found != Some(first)
    decreases end - start
  {
    var mid := Middle(start, end);
    if view(mid).Missing? {
      if first == start {
        BisectSound(view, start + 1, end, target, known);
      } else {
        SteppedOverNotFound(view, start + 1, end, target, known, first);
      }
    } else {
      SeparatesHalf(view, start, end, target, first);
      if view(mid).time < target {
        SteppedOverNotFound(view, mid + 1, end, target, known, first);
      } else {
        SteppedOverNotFound(view, start, mid, target, Some(mid), first);
      }
    }
  }

  lemma {:induction false} NotSteppedOverFound(view: Oracle, start: nat, end: nat, target: nat, known: Option<nat>,
                                               first: nat)
    requires Separates(view, start, end, target, first) && !SteppedOver(view, start, end, target, first)
    requires first == end ==> known == Some(end)
    ensures Bisect(view, start, end, target, known).found == Some(first)
    decreases end - start
  {
    if end - start > 1 {
      var mid := Middle(start, end);
      if view(mid).Missing? {
        NotSteppedOverFound(view, start + 1, end, target, known, first);
      } else {
        SeparatesHalf(view, start, end, target, first);
        if view(mid).time < target {
          NotSteppedOverFound(view, mid + 1, end, target, known, first);
        } else {
          NotSteppedOverFound(view, start, mid, target, Some(mid), first);
        }
      }
    }
  }

  /** The half in which the search goes on holds the first suitable height. */
  lemma SeparatesHalf(view: Oracle, start: nat, end: nat, target: nat, first: nat)
    requires end - start > 1 && Separates(view, start, end, target, first) && view(Middle(start, end)).Stored?
    ensures var mid := Middle(start, end);
            if view(mid).time < target then Separates(view, mid + 1, end, target, first)
            else Separates(view, start, mid, target, first)
  {
  }

  /** With a hole right below the upper end, no search lands on it. */
  lemma {:induction false} LandingNeeds(view: Oracle, end: nat, distance: nat)
    requires 0 < distance <= end && LandsOn(view, end, distance)
    ensures !view(end - 1).Missing?
    decreases distance
  {
    if distance > 2 {
      LandingNeeds(view, end, if view(end - (distance + 1) / 2).Missing? then distance - 1 else (distance + 1) / 2 - 1);
    }
  }

  /** The upper end, when it is the only suitable height and not known to be one, is returned exactly
      when the search lands on it. */
  lemma {:induction false} EndFoundIff(view: Oracle, start: nat, end: nat, target: nat)
    requires Separates(view, start, end, target, end)
    ensures Bisect(view, start, end, target, None).found == Some(end) <==> LandsOn(view, end, end - start)
    decreases end - start
  {
    if end - start > 1 {
      var mid := Middle(start, end);
      assert mid == end - (end - start + 1) / 2 && start < mid < end;
      EndFoundIff(view, if view(mid).Missing? then start + 1 else mid + 1, end, target);
    }
  }

  /** The exact condition, on any oracle in time order, under which the documented promise holds: the
      first suitable height is returned. */
  lemma FirstReachingFoundIff(view: Oracle, start: nat, latest: nat, target: nat, first: nat)
    requires Chronological(view, start, latest) && IsFirstReaching(view, start, latest, target, first)
    ensures Timed(view, start, latest, target) == Some(first) <==>
              if first == latest then LandsOn(view, latest, latest - start)
              else !SteppedOver(view, start, latest, target, first)
  {
    FirstSeparates(view, start, latest, target, first);
    if first == latest {
      EndFoundIff(view, start, latest, target);
    } else {
      FoundIffNotSteppedOver(view, start, latest, target, None, first);
    }
  }

  // ---------- conditions that are read off the oracle ----------

  /** Holes do no harm below the first suitable height: it is returned when none lies strictly between
      it and the latest height. */
  lemma FoundWithoutHolesAbove(view: Oracle, start: nat, latest: nat, target: nat, first: nat)
    requires Chronological(view, start, latest) && IsFirstReaching(view, start, latest, target, first)
    requires first < latest && forall h :: first < h < latest ==> !view(h).Missing?
    ensures Timed(view, start, latest, target) == Some(first)
  {
    FirstSeparates(view, start, latest, target, first);
    NothingSteppedOver(view, start, latest, target, first);
    FoundIffNotSteppedOver(view, start, latest, target, None, first);
  }

  lemma {:induction false} NothingSteppedOver(view: Oracle, start: nat, end: nat, target: nat, first: nat)
    requires Separates(view, start, end, target, first)
    requires forall h :: first < h < end ==> !view(h).Missing?
    ensures !SteppedOver(view, start, end, target, first)
    decreases end - start
  {
    if end - start > 1 {
      var mid := Middle(start, end);
      if view(mid).Missing? {
        assert start < mid < end && mid < first;
        NothingSteppedOver(view, start + 1, end, target, first);
      } else if view(mid).time < target {
        NothingSteppedOver(view, mid + 1, end, target, first);
      } else {
        NothingSteppedOver(view, start, mid, target, first);
      }
    }
  }

  /** `n` halved `i` times, rounding down. */
  ghost function Halved(n: nat, i: nat): (r: nat)
    ensures r <= n
  {
    if i == 0 then n else Halved(n / 2, i - 1)
  }

  /** The heights halfway from `first` to `end`, a quarter of the way, and so on. */
  ghost predicate HalvingsStored(view: Oracle, first: nat, distance: nat) {
    forall i: nat :: i > 0 && Halved(distance, i) > 0 ==> !view(first + Halved(distance, i)).Missing?
  }

  /** When the search starts at a suitable height, it returns that height exactly when the heights
      halfway, a quarter, an eighth of the way to the latest one, and so on, are all stored. */
  lemma StartFoundIff(view: Oracle, start: nat, latest: nat, target: nat)
    requires Chronological(view, start, latest) && start <= latest && Reaches(view, target, start)
    ensures Timed(view, start, latest, target) == Some(start) <==> HalvingsStored(view, start, latest - start)
  {
    FirstReachingFoundIff(view, start, latest, target, start);
    if start == latest {
      forall i: nat
        ensures Halved(0, i) == 0
      {
      }
    } else {
      FirstSeparates(view, start, latest, target, start);
      StartSteppedOverIff(view, start, latest, target);
    }
  }

  lemma {:induction false} StartSteppedOverIff(view: Oracle, start: nat, end: nat, target: nat)
    requires Separates(view, start, end, target, start)
    ensures SteppedOver(view, start, end, target, start) <==> !HalvingsStored(view, start, end - start)
    decreases end - start
  {
    var d := end - start;
    if d > 1 {
      var mid := Middle(start, end);
      assert mid == start + d / 2 && mid - start == d / 2;
      assert Halved(d, 1) == Halved(d / 2, 0) == d / 2;
      if view(mid).Missing? {
        assert view(start + Halved(d, 1)).Missing?;
      } else {
        StartSteppedOverIff(view, start, mid, target);
        HalvingsStep(view, start, d);
      }
    } else {
      HalvingsOfOne(d);
    }
  }

  lemma HalvingsOfOne(d: nat)
    requires d <= 1
    ensures forall i: nat :: i > 0 ==> Halved(d, i) == 0
  {
    forall i: nat | i > 0
      ensures Halved(d, i) == 0
    {
      assert Halved(d, i) == Halved(0, i - 1);
    }
  }

  lemma HalvingsStep(view: Oracle, first: nat, d: nat)
    requires d > 1 && !view(first + d / 2).Missing?
    ensures HalvingsStored(view, first, d) <==> HalvingsStored(view, first, d / 2)
  {
    assert Halved(d, 1) == Halved(d / 2, 0) == d / 2;
    if HalvingsStored(view, first, d) {
      forall i: nat | i > 0 && Halved(d / 2, i) > 0
        ensures !view(first + Halved(d / 2, i)).Missing?
      {
        assert Halved(d, i + 1) == Halved(d / 2, i);
      }
    }
    if HalvingsStored(view, first, d / 2) {
      forall i: nat | i > 0 && Halved(d, i) > 0
        ensures !view(first + Halved(d, i)).Missing?
      {
        assert Halved(d, i) == Halved(d / 2, i - 1);
      }
    }
  }

  /** The oracle of a client that stored every height up to `own` and none above it. */
  ghost predicate StoredUpTo(view: Oracle, start: nat, own: nat, latest: nat) {
    && (forall h :: start <= h <= own ==> view(h).Stored?)
    && (forall h :: own < h <= latest ==> view(h).Missing?)
  }

  /** Whether halving the count of heights in range ends at the last of them: the count is one, or its
      binary digits begin with two ones. */
  ghost predicate EndsAtLast(count: nat) {
    count == 1 || exists i: nat :: Halved(count, i) == 3
  }

  /** Of the `count` heights up to `latest`, those half, a quarter, an eighth of them below the end,
      and so on, are where a search that moves only its lower end looks; one of them lies between
      `first` and `own`. */
  ghost predicate Hits(count: nat, latest: nat, first: nat, own: nat) {
    || (exists i: nat :: i > 0 && Halved(count, i) > 0 && first <= latest - Halved(count, i) <= own)
    || (EndsAtLast(count) && first <= latest <= own)
  }

  /** The exact meaning of the timed search on a client without holes, whether or not the upper bound of
      the search is the client's own height: it returns the first suitable height when a place where it
      looks is suitable, and nothing otherwise. */
  lemma TimedSearchExact(view: Oracle, start: nat, own: nat, latest: nat, target: nat)
    requires start <= latest && StoredUpTo(view, start, own, latest) && Chronological(view, start, own)
    ensures forall first: nat :: IsFirstReaching(view, start, own, target, first) ==>
              Timed(view, start, latest, target) ==
                if Hits(latest - start + 1, latest, first, own) then Some(first) else None
    ensures (forall h :: start <= h <= own ==> !Reaches(view, target, h)) ==> Timed(view, start, latest, target).None?
  {
    forall first: nat | IsFirstReaching(view, start, own, target, first)
      ensures Timed(view, start, latest, target) ==
                if Hits(latest - start + 1, latest, first, own) then Some(first) else None
    {
      FirstSeparates(view, start, own, target, first);
      RisingSearch(view, start, own, latest, target, first);
    }
  }

  /** With the client's latest height as the bound and no hole, the search returns the least suitable
      height below the bound if there is any, and the bound itself only when the halving ends there. */
  lemma TimedSearchGapFree(view: Oracle, start: nat, latest: nat, target: nat, first: nat)
    requires GapFree(view, start, latest) && Chronological(view, start, latest)
    requires IsFirstReaching(view, start, latest, target, first)
    ensures Timed(view, start, latest, target) ==
              if first < latest || EndsAtLast(latest - start + 1) then Some(first) else None
  {
    TimedSearchExact(view, start, latest, latest, target);
    HitsBelowLatest(latest - start + 1, latest, first, latest);
  }

  lemma HitsBelowLatest(count: nat, latest: nat, first: nat, own: nat)
    requires latest + 1 - count <= first <= latest <= own && 0 < count <= latest + 1
    ensures Hits(count, latest, first, own) <==> first < latest || EndsAtLast(count)
  {
    if first < latest {
      var i := HalvedToOne(count);
      assert Halved(count, i) == 1 && i > 0;
    }
  }

  lemma {:induction false} HalvedToOne(n: nat) returns (i: nat)
    requires n > 0
    ensures Halved(n, i) == 1 && (n > 1 ==> i > 0)
  {
    if n == 1 {
      i := 0;
    } else {
      var j := HalvedToOne(n / 2);
      i := j + 1;
    }
  }

  lemma {:induction false} RisingSearch(view: Oracle, start: nat, own: nat, end: nat, target: nat, first: nat)
    requires start <= end && StoredUpTo(view, start, own, end) && Separates(view, start, own, target, first)
    ensures Bisect(view, start, end, target, None).found ==
              if Hits(end - start + 1, end, first, own) then Some(first) else None
    decreases end - start
  {
    var count := end - start + 1;
    if count > 2 {
      var mid := Middle(start, end);
      assert mid == end - count / 2;
      if mid > own {
        NothingAbove(view, start, end, own, target);
        HitsAbove(count, end, first, own);
      } else if mid >= first {
        FoundOnceSeen(view, start, own, end, target, first);
      } else {
        RisingSearch(view, mid + 1, own, end, target, first);
        HitsStep(count, end, first, own);
      }
    } else {
      HitsOfTwo(count, end, first, own);
    }
  }

  /** A midpoint between the first suitable height and the client's own one settles the search. */
  lemma FoundOnceSeen(view: Oracle, start: nat, own: nat, end: nat, target: nat, first: nat)
    requires end - start > 1 && StoredUpTo(view, start, own, end) && Separates(view, start, own, target, first)
    requires first <= Middle(start, end) <= own
    ensures Bisect(view, start, end, target, None).found == Some(first)
    ensures Hits(end - start + 1, end, first, own)
  {
    var mid, count := Middle(start, end), end - start + 1;
    assert mid == end - count / 2 && Halved(count, 1) == Halved(count / 2, 0) == count / 2;
    NothingSteppedOver(view, start, mid, target, first);
    NotSteppedOverFound(view, start, mid, target, Some(mid), first);
  }

  lemma {:induction false} NothingAbove(view: Oracle, start: nat, end: nat, own: nat, target: nat)
    requires end - start > 1 && Middle(start, end) > own && forall h :: own < h <= end ==> view(h).Missing?
    ensures Bisect(view, start, end, target, None).found.None?
    decreases end - start
  {
    if end - start > 2 {
      NothingAbove(view, start + 1, end, own, target);
    }
  }

  lemma HitsAbove(count: nat, end: nat, first: nat, own: nat)
    requires count / 2 <= end && own < end - count / 2
    ensures !Hits(count, end, first, own)
  {
    forall i: nat | i > 0
      ensures Halved(count, i) <= count / 2
    {
      assert Halved(count, i) == Halved(count / 2, i - 1);
    }
  }

  lemma HitsStep(count: nat, end: nat, first: nat, own: nat)
    requires count > 2 && count / 2 <= end && end - count / 2 < first
    ensures Hits(count, end, first, own) <==> Hits(count / 2, end, first, own)
  {
    EndsAtLastStep(count);
    assert Halved(count, 1) == Halved(count / 2, 0) == count / 2;
    if i: nat :| i > 0 && Halved(count, i) > 0 && first <= end - Halved(count, i) <= own {
      assert Halved(count, i) == Halved(count / 2, i - 1) && i > 1;
    }
    if i: nat :| i > 0 && Halved(count / 2, i) > 0 && first <= end - Halved(count / 2, i) <= own {
      assert Halved(count, i + 1) == Halved(count / 2, i);
    }
  }

  lemma EndsAtLastStep(count: nat)
    requires count > 2
    ensures EndsAtLast(count) <==> EndsAtLast(count / 2)
  {
    if count == 3 {
      assert Halved(count, 0) == 3;
    } else {
      forall i: nat
        ensures Halved(count, i + 1) == Halved(count / 2, i)
      {
      }
      if EndsAtLast(count) {
        var i: nat :| Halved(count, i) == 3;
        assert Halved(count / 2, i - 1) == 3;
      }
    }
  }

  lemma HitsOfTwo(count: nat, end: nat, first: nat, own: nat)
    requires 0 < count <= 2 && count <= end + 1
    ensures Hits(count, end, first, own) <==> first <= end + 1 - count <= own
  {
    HalvingsOfOne(1);
    HalvingsOfOne(0);
    assert Halved(2, 1) == Halved(1, 0) == 1;
    forall i: nat | i > 1
      ensures Halved(2, i) == 0
    {
      assert Halved(2, i) == Halved(1, i - 1);
    }
    assert Halved(2, 0) == 2;
  }

  /** The latest height alone qualifies and is not returned. */
  lemma LatestHeightOverlooked(view: Oracle)
    requires view(1) == Stored(10) && view(2) == Stored(20)
    ensures IsFirstReaching(view, 1, 2, 20, 2) && Timed(view, 1, 2, 20).None?
  {
  }

  /** A missing midpoint makes the search step over the first suitable height. */
  lemma HoleHidesFirst(view: Oracle)
    requires view(1) == Stored(10) && view(2) == Missing && view(3) == Stored(30)
    ensures IsFirstReaching(view, 1, 3, 10, 1) && Timed(view, 1, 3, 10).None?
  {
  }

  // ---------- the combined entry point ----------

  function Suitable(view: Oracle, start: Height, target: Option<nat>, latest: Height): Option<Height> {
    var r := match target
      case None => FirstStored(view, start.height, latest.height)
      case Some(time) => Timed(view, start.height, latest.height, time);
    if r.None? then None else Some(Height(start.number, r.value))
  }

  method FindSuitableProofHeight(view: Oracle, start: Height, target: Option<nat>, latest: Height)
    returns (r: Option<Height>)
    ensures r == Suitable(view, start, target, latest)
    ensures r.Some? ==>
              && r.value.number == start.number
              && start.height <= r.value.height <= latest.height
              && !view(r.value.height).Missing?
              && (target.Some? ==> Reaches(view, target.value, r.value.height))
    ensures target.None? ==>
              && (r.None? <==> forall h :: start.height <= h <= latest.height ==> view(h).Missing?)
              && (r.Some? ==> IsFirstStored(view, start.height, latest.height, r.value.height))
    ensures target.Some? ==>
              var found := Timed(view, start.height, latest.height, target.value);
              r == if found.None? then None else Some(Height(start.number, found.value))
  {
    FirstStoredMeaning(view, start.height, latest.height);
    var h: Option<nat>;
    ghost var probes;
    if target.None? {
      h := LinearSearch(view, start.height, latest.height);
      assert h.Some? ==> IsFirstStored(view, start.height, latest.height, h.value);
    } else {
      h, probes := TimedSearch(view, start.height, latest.height, target.value);
    }
    return if h.Some? then Some(Height(start.number, h.value)) else None;
  }
}
