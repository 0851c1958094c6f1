/** The bounded FIFO shared by the analyzer's trade/price history
    (capacity 10000) and the monitor's recent-trade window (capacity 50):
    push at the back, then drop the front element when the capacity is
    exceeded. */
module Window {

  /** One push_back followed by the source's "if size() > capacity, pop_front". */
  function Push<T>(w: seq<T>, x: T, capacity: nat): (r: seq<T>)
    ensures |w| <= capacity && capacity > 0 ==> |r| <= capacity
    ensures capacity > 0 ==> |r| > 0 && r[|r| - 1] == x
  {
    var s := w + [x];
    if |s| > capacity then s[1..] else s
  }

  /** A sequence of pushes, oldest first. */
  function PushAll<T>(w: seq<T>, xs: seq<T>, capacity: nat): seq<T>
    decreases |xs|
  {
    if xs == [] then w else PushAll(Push(w, xs[0], capacity), xs[1..], capacity)
  }

  /** The newest (at most) k elements of s. */
  function Newest<T>(s: seq<T>, k: nat): (r: seq<T>)
    ensures |r| == if |s| < k then |s| else k
  {
    if |s| <= k then s else s[|s| - k..]
  }

  /** One push keeps exactly the newest `capacity` elements: the element
      dropped is the oldest one. */
  lemma PushKeepsNewest<T>(w: seq<T>, x: T, capacity: nat)
    requires capacity > 0 && |w| <= capacity
    ensures Push(w, x, capacity) == Newest(w + [x], capacity)
  {
  }

  /** After any sequence of pushes the window holds exactly the newest
      `capacity` elements of everything pushed, in arrival order. */
  lemma {:induction false} PushAllKeepsNewest<T>(w: seq<T>, xs: seq<T>, capacity: nat)
    requires capacity > 0 && |w| <= capacity
    ensures PushAll(w, xs, capacity) == Newest(w + xs, capacity)
    ensures |PushAll(w, xs, capacity)| <= capacity
    decreases |xs|
  {
    if xs != [] {
      var w' := Push(w, xs[0], capacity);
      PushKeepsNewest(w, xs[0], capacity);
      PushAllKeepsNewest(w', xs[1..], capacity);
      var all := w + xs;
      assert (w + [xs[0]]) + xs[1..] == all;
      NewestOfNewest(w + [xs[0]], xs[1..], capacity);
    }
  }

  lemma NewestOfNewest<T>(a: seq<T>, b: seq<T>, k: nat)
    ensures Newest(Newest(a, k) + b, k) == Newest(a + b, k)
  {
    if |a| > k {
      var n := a[|a| - k..];
      assert Newest(a, k) == n;
      if b == [] {
        assert n + b == n && a + b == a;
      } else {
        DropAfterDrop(a, b, |a| - k, |b|);
      }
    }
  }

  /** Dropping j elements of a, appending b, then dropping m more is
      dropping j + m elements of a + b. */
  lemma DropAfterDrop<T>(a: seq<T>, b: seq<T>, j: nat, m: nat)
    requires j <= |a| && m <= |a| - j + |b|
    ensures (a[j..] + b)[m..] == (a + b)[j + m..]
  {
    var l := a[j..] + b;
    forall i | 0 <= i < |l| - m
      ensures l[m..][i] == (a + b)[j + m..][i]
    {
      if m + i < |a| - j {
        assert l[m + i] == a[j + m + i];
      } else {
        assert l[m + i] == b[m + i - (|a| - j)];
      }
    }
  }

  /** Mapping commutes with the window: a window of prices kept beside a
      window of trades stays the list of those trades' prices. */
  lemma {:induction false} PushMap<T, U>(w: seq<T>, x: T, f: T -> U, capacity: nat)
    ensures Push(Map(w, f), f(x), capacity) == Map(Push(w, x, capacity), f)
  {
    var s := w + [x];
    MapAppend(w, [x], f);
    if |s| > capacity {
      MapDrop(s, f);
    }
  }

  function Map<T, U>(s: seq<T>, f: T -> U): (r: seq<U>)
    ensures |r| == |s|
    ensures forall i :: 0 <= i < |s| ==> r[i] == f(s[i])
  {
    seq(|s|, i requires 0 <= i < |s| => f(s[i]))
  }

  lemma MapAppend<T, U>(a: seq<T>, b: seq<T>, f: T -> U)
    ensures Map(a + b, f) == Map(a, f) + Map(b, f)
  {
  }

  lemma MapDrop<T, U>(s: seq<T>, f: T -> U)
    requires |s| > 0
    ensures Map(s[1..], f) == Map(s, f)[1..]
  {
  }
}
