/**
 * The order in which an artist's albums are visited: a random-swap shuffle
 * followed by a left rotation that brings the resume entry to the front.
 */
module Order {

  /**
   * A value in [b, e), from a draw of the random source. The source's own
   * promise is that a draw for a range of n values lies in [0, n).
   */
  function IntnRange(draw: nat, b: int, e: int): (r: int)
    requires draw < e - b
    ensures b <= r < e
    ensures r - b == draw
  {
    draw + b
  }

  /**
   * Draws the random source can supply to shuffle `n` entries: at step i,
   * one draw below n - i.
   */
  predicate ValidDraws(draws: seq<nat>, n: nat)
  {
    |draws| == n && forall i :: 0 <= i < n ==> draws[i] < n - i
  }

  /** `s` with the elements at i and j exchanged. */
  function Swap<T>(s: seq<T>, i: nat, j: nat): (r: seq<T>)
    requires i < |s| && j < |s|
    ensures |r| == |s|
    ensures r[i] == s[j] && r[j] == s[i]
    ensures forall k :: 0 <= k < |s| && k != i && k != j ==> r[k] == s[k]
  {
    s[i := s[j]][j := s[i]]
  }

  lemma SwapPermutes<T>(s: seq<T>, i: nat, j: nat)
    requires i < |s| && j < |s|
    ensures multiset(Swap(s, i, j)) == multiset(s)
  {
  }

  /** The swap steps i, i + 1, ..., |s| - 1 of the shuffle, applied to `s`. */
  function ShuffledFrom<T>(s: seq<T>, draws: seq<nat>, i: nat): (r: seq<T>)
    requires ValidDraws(draws, |s|) && i <= |s|
    ensures |r| == |s|
    ensures forall k :: 0 <= k < i ==> r[k] == s[k]
    decreases |s| - i
  {
    if i == |s| then s
    else
      var n := IntnRange(draws[i], i, |s|);
      ShuffledFrom(Swap(s, i, n), draws, i + 1)
  }

  /** Each swap step only exchanges two entries, so the steps together permute `s`. */
  lemma {:induction false} ShuffledFromPermutes<T>(s: seq<T>, draws: seq<nat>, i: nat)
    requires ValidDraws(draws, |s|) && i <= |s|
    ensures multiset(ShuffledFrom(s, draws, i)) == multiset(s)
    decreases |s| - i
  {
    if i < |s| {
      var n := IntnRange(draws[i], i, |s|);
      SwapPermutes(s, i, n);
      ShuffledFromPermutes(Swap(s, i, n), draws, i + 1);
    }
  }

  /** Specification of the shuffle of an artist's albums. */
  function Shuffled<T>(s: seq<T>, draws: seq<nat>): (r: seq<T>)
    requires ValidDraws(draws, |s|)
    ensures |r| == |s| && multiset(r) == multiset(s)
  {
    ShuffledFromPermutes(s, draws, 0);
    ShuffledFrom(s, draws, 0)
  }

  /** The shuffle as the program runs it, in place: swap entry i with entry n in [i, len). */
  method Shuffle<T>(a: array<T>, draws: seq<nat>)
    requires ValidDraws(draws, a.Length)
    modifies a
    ensures a[..] == Shuffled(old(a[..]), draws)
    ensures multiset(a[..]) == multiset(old(a[..]))
  {
    ghost var goal := Shuffled(a[..], draws);
    var i := 0;
    while i < a.Length
      invariant i <= a.Length
      invariant ShuffledFrom(a[..], draws, i) == goal
    {
      var n := IntnRange(draws[i], i, a.Length);
      ghost var before := a[..];
      var t := a[i];
      a[i] := a[n];
      a[n] := t;
      assert forall k :: 0 <= k < a.Length ==> a[..][k] == Swap(before, i, n)[k];
      i := i + 1;
    }
  }

  /** The left rotation that makes index k the front: s[k..] followed by s[..k]. */
  function Rotate<T>(s: seq<T>, k: nat): (r: seq<T>)
    requires k <= |s|
    ensures |r| == |s|
    ensures forall j :: 0 <= j < |s| - k ==> r[j] == s[k + j]
    ensures forall j :: |s| - k <= j < |s| ==> r[j] == s[j - (|s| - k)]
  {
    s[k..] + s[..k]
  }

  /** A rotation neither loses nor duplicates an entry. */
  lemma RotatePermutes<T>(s: seq<T>, k: nat)
    requires k <= |s|
    ensures multiset(Rotate(s, k)) == multiset(s)
  {
    assert s == s[..k] + s[k..];
  }

  // ---------------------------------------------------------------------

  /** The first entry after the shuffle is the one the first draw picked. */
  lemma ShuffledFront<T>(s: seq<T>, draws: seq<nat>)
    requires ValidDraws(draws, |s|) && |s| > 0
    ensures Shuffled(s, draws)[0] == s[draws[0]]
  {
    var s1 := Swap(s, 0, IntnRange(draws[0], 0, |s|));
    assert Shuffled(s, draws) == ShuffledFrom(s1, draws, 1);
  }

  /** Draws that are all zero swap every entry with itself: the order is unchanged. */
  lemma {:induction false} ShuffledFromZeroDraws<T>(s: seq<T>, draws: seq<nat>, i: nat)
    requires ValidDraws(draws, |s|) && i <= |s|
    requires forall k :: 0 <= k < |s| ==> draws[k] == 0
    ensures ShuffledFrom(s, draws, i) == s
    decreases |s| - i
  {
    if i < |s| {
      assert IntnRange(draws[i], i, |s|) == i;
      assert Swap(s, i, i) == s;
      assert ShuffledFrom(s, draws, i) == ShuffledFrom(s, draws, i + 1);
      ShuffledFromZeroDraws(s, draws, i + 1);
    }
  }

  lemma ShuffledZeroDraws<T>(s: seq<T>, draws: seq<nat>)
    requires ValidDraws(draws, |s|)
    requires forall k :: 0 <= k < |s| ==> draws[k] == 0
    ensures Shuffled(s, draws) == s
  {
    ShuffledFromZeroDraws(s, draws, 0);
  }

  /** Rotations compose: the cyclic order of the entries never changes. */
  lemma RotateRotate<T>(s: seq<T>, a: nat, b: nat)
    requires a <= |s| && b <= |s|
    ensures Rotate(Rotate(s, a), b) == Rotate(s, if a + b <= |s| then a + b else a + b - |s|)
  {
    var c := if a + b <= |s| then a + b else a + b - |s|;
    var t := Rotate(Rotate(s, a), b);
    forall j | 0 <= j < |s|
      ensures t[j] == Rotate(s, c)[j]
    {
    }
  }

  /** Rotating by k and then by |s| - k restores the listing. */
  lemma RotateBack<T>(s: seq<T>, k: nat)
    requires k <= |s|
    ensures Rotate(Rotate(s, k), |s| - k) == s
  {
    RotateRotate(s, k, |s| - k);
    assert Rotate(s, |s|) == s;
  }
}
