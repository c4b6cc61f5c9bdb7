/** Sublists taken in order: filtering, and the positions that a filter keeps. */
module Lists {

  function Last<T>(s: seq<T>): T
    requires s != []
  {
    s[|s| - 1]
  }

  function Front<T>(s: seq<T>): seq<T>
    requires s != []
  {
    s[..|s| - 1]
  }

  function Keep<T(!new)>(s: seq<T>, p: T -> bool): (r: seq<T>)
    ensures forall x :: x in r <==> x in s && p(x)
  {
    if s == [] then []
    else
      assert s == Front(s) + [Last(s)];
      if p(Last(s)) then Keep(Front(s), p) + [Last(s)] else Keep(Front(s), p)
  }

  lemma {:induction false} KeepAppend<T(!new)>(s: seq<T>, t: seq<T>, p: T -> bool)
    ensures Keep(s + t, p) == Keep(s, p) + Keep(t, p)
  {
    if t == [] {
      assert s + t == s;
    } else {
      assert Front(s + t) == s + Front(t) && Last(s + t) == Last(t);
      KeepAppend(s, Front(t), p);
      var kept := if p(Last(t)) then [Last(t)] else [];
      assert Keep(t, p) == Keep(Front(t), p) + kept && Keep(s + t, p) == Keep(s + Front(t), p) + kept;
      assert (Keep(s, p) + Keep(Front(t), p)) + kept == Keep(s, p) + (Keep(Front(t), p) + kept);
    }
  }

  /** Filters that agree on the list keep the same sublist. */
  lemma {:induction false} KeepSame<T(!new)>(s: seq<T>, p: T -> bool, q: T -> bool)
    requires forall x :: x in s ==> p(x) == q(x)
    ensures Keep(s, p) == Keep(s, q)
  {
    if s != [] {
      KeepSame(Front(s), p, q);
    }
  }

  /** The positions below `n` that satisfy `p`, each once and in increasing order. */
  function Positions(n: nat, p: nat -> bool): (r: seq<nat>)
    ensures forall i: nat :: i in r <==> i < n && p(i)
    ensures forall k :: 0 <= k < |r| ==> r[k] < n
    ensures forall i, j :: 0 <= i < j < |r| ==> r[i] < r[j]
  {
    if n == 0 then []
    else if p(n - 1) then Positions(n - 1, p) + [n - 1]
    else Positions(n - 1, p)
  }

  /** What is appended is found behind what was there. */
  lemma AppendedSlices<T>(s: seq<T>, a: seq<T>, b: seq<T>)
    ensures (s + (a + b))[|s|..|s| + |a|] == a
    ensures (s + (a + b))[|s| + |a|..|s| + |a| + |b|] == b
  {
  }

  lemma PrefixSlice<T>(s: seq<T>, t: seq<T>, i: nat, j: nat)
    requires s <= t && i <= j <= |s|
    ensures t[i..j] == s[i..j]
  {
  }
}
