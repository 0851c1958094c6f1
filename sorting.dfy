/** Sorting as the source uses it: std::sort on a vector, in place, under a
    "less than" on one real key. std::sort is not stable, so what it
    promises is exactly "ordered by the key, and a permutation". For plain
    reals that pins the result down, which lets percentile indices be
    stated against one canonical sorted sequence, SortAsc. */
module Sorting {

  ghost predicate SortedBy<T>(s: seq<T>, key: T -> real)
  {
    forall i, j :: 0 <= i < j < |s| ==> key(s[i]) <= key(s[j])
  }

  ghost predicate Ascending(s: seq<real>)
  {
    forall i, j :: 0 <= i < j < |s| ==> s[i] <= s[j]
  }

  /** In-place insertion sort by ascending key. */
  method SortByKey<T>(a: array<T>, key: T -> real)
    modifies a
    ensures SortedBy(a[..], key)
    ensures multiset(a[..]) == multiset(old(a[..]))
  {
    var i := 0;
    while i < a.Length
      invariant 0 <= i <= a.Length
      invariant forall p, q :: 0 <= p < q < i ==> key(a[p]) <= key(a[q])
      invariant multiset(a[..]) == multiset(old(a[..]))
    {
      SiftDown(a, key, i);
      i := i + 1;
    }
  }

  /** Moves a[i] left past every larger key; a[..i] was sorted, a[..i+1] is. */
  method SiftDown<T>(a: array<T>, key: T -> real, i: nat)
    requires i < a.Length
    requires forall p, q :: 0 <= p < q < i ==> key(a[p]) <= key(a[q])
    modifies a
    ensures forall p, q :: 0 <= p < q <= i ==> key(a[p]) <= key(a[q])
    ensures multiset(a[..]) == multiset(old(a[..]))
  {
    var j := i;
    while j > 0 && key(a[j - 1]) > key(a[j])
      invariant 0 <= j <= i
      invariant Sifting(a[..], key, j, i)
      invariant multiset(a[..]) == multiset(old(a[..]))
    {
      ghost var before := a[..];
      a[j - 1], a[j] := a[j], a[j - 1];
      SwapStep(before, a[..], key, j, i);
      j := j - 1;
    }
    SiftDone(a[..], key, j, i);
  }

  /** The state of SiftDown with the moving element at j: a[..i+1] is
      ordered except around j, and everything right of j is at least a[j]. */
  ghost predicate Sifting<T>(s: seq<T>, key: T -> real, j: nat, i: nat)
    requires j <= i < |s|
  {
    && (forall p, q :: 0 <= p < q <= i && p != j && q != j ==> key(s[p]) <= key(s[q]))
    && (forall p, q :: 0 <= p < j < q <= i ==> key(s[p]) <= key(s[q]))
    && (forall q :: j < q <= i ==> key(s[j]) <= key(s[q]))
  }

  /** One swap of the moving element with its larger left neighbour. */
  lemma SwapStep<T>(s: seq<T>, t: seq<T>, key: T -> real, j: nat, i: nat)
    requires 0 < j <= i < |s| && Sifting(s, key, j, i) && key(s[j - 1]) > key(s[j])
    requires t == s[j - 1 := s[j]][j := s[j - 1]]
    ensures Sifting(t, key, j - 1, i)
    ensures multiset(t) == multiset(s)
  {
  }

  /** Once the moving element's left neighbour is no larger, a[..i+1] is sorted. */
  lemma SiftDone<T>(s: seq<T>, key: T -> real, j: nat, i: nat)
    requires j <= i < |s| && Sifting(s, key, j, i)
    requires j == 0 || key(s[j - 1]) <= key(s[j])
    ensures forall p, q :: 0 <= p < q <= i ==> key(s[p]) <= key(s[q])
  {
  }

  /** Insert x into an ascending sequence. */
  function Insert(x: real, s: seq<real>): (r: seq<real>)
    requires Ascending(s)
    ensures Ascending(r)
    ensures multiset(r) == multiset(s) + multiset{x}
    ensures |r| == |s| + 1
    decreases |s|
  {
    if s == [] then [x]
    else if x <= s[0] then
      InsertedBelow(x, s);
      [x] + s
    else
      HeadAndTail(s);
      var t := Insert(x, s[1..]);
      InsertedAbove(s, x, t);
      [s[0]] + t
  }

  /** x no larger than the head of an ascending s may go in front. */
  lemma InsertedBelow(x: real, s: seq<real>)
    requires Ascending(s) && s != [] && x <= s[0]
    ensures Ascending([x] + s)
  {
  }

  /** The head of s followed by the insertion of x (above that head) into
      the tail is ascending and holds s plus x. */
  lemma InsertedAbove(s: seq<real>, x: real, t: seq<real>)
    requires Ascending(s) && s != [] && s[0] < x
    requires Ascending(t) && multiset(t) == multiset(s[1..]) + multiset{x}
    ensures Ascending([s[0]] + t)
    ensures multiset([s[0]] + t) == multiset(s) + multiset{x}
  {
    forall k | 0 <= k < |t|
      ensures s[0] <= t[k]
    {
      assert t[k] in multiset(t);
      if t[k] != x {
        assert t[k] in multiset(s[1..]);
        HeadIsLeast(s, t[k]);
      }
    }
    assert s == [s[0]] + s[1..];
  }

  /** The canonical ascending arrangement of a sample of reals. */
  function SortAsc(s: seq<real>): (r: seq<real>)
    ensures Ascending(r)
    ensures multiset(r) == multiset(s)
    ensures |r| == |s|
    decreases |s|
  {
    if s == [] then []
    else
      assert s == s[..|s| - 1] + [s[|s| - 1]];
      Insert(s[|s| - 1], SortAsc(s[..|s| - 1]))
  }

  /** Two ascending arrangements of the same multiset of reals are equal:
      any correct sort of a real sample yields SortAsc of it. */
  lemma {:induction false} AscendingUnique(a: seq<real>, b: seq<real>)
    requires Ascending(a) && Ascending(b)
    requires multiset(a) == multiset(b)
    ensures a == b
    decreases |a|
  {
    assert |a| == |multiset(a)| == |multiset(b)| == |b|;
    if a != [] {
      SameHeadSameTail(a, b);
      AscendingUnique(a[1..], b[1..]);
      assert a == [a[0]] + a[1..] && b == [b[0]] + b[1..];
    }
  }

  /** Two non-empty ascending arrangements of one multiset start with the
      same element, and their tails are again such a pair. */
  lemma SameHeadSameTail(a: seq<real>, b: seq<real>)
    requires Ascending(a) && Ascending(b)
    requires multiset(a) == multiset(b) && a != [] && b != []
    ensures a[0] == b[0]
    ensures Ascending(a[1..]) && Ascending(b[1..])
    ensures multiset(a[1..]) == multiset(b[1..])
  {
    HeadIsLeast(b, a[0]);
    HeadIsLeast(a, b[0]);
    HeadAndTail(a);
    HeadAndTail(b);
    assert multiset(a[1..]) == multiset(a) - multiset{a[0]};
    assert multiset(b[1..]) == multiset(b) - multiset{b[0]};
  }

  lemma HeadIsLeast(s: seq<real>, x: real)
    requires Ascending(s) && x in multiset(s)
    ensures s[0] <= x
  {
    var i :| 0 <= i < |s| && s[i] == x;
    if i > 0 {
      assert s[0] <= s[i];
    }
  }

  lemma HeadAndTail(s: seq<real>)
    requires |s| > 0 && Ascending(s)
    ensures multiset(s) == multiset{s[0]} + multiset(s[1..])
    ensures Ascending(s[1..])
  {
    assert s == [s[0]] + s[1..];
  }

  /** std::sort on a vector<double>: sorts in place and yields SortAsc. */
  method SortReals(a: array<real>)
    modifies a
    ensures a[..] == SortAsc(old(a[..]))
  {
    var id := (x: real) => x;
    SortByKey(a, id);
    assert Ascending(a[..]) by {
      assert SortedBy(a[..], id);
    }
    AscendingUnique(a[..], SortAsc(old(a[..])));
  }

  /** std::sort on a copy of the values. */
  method SortedCopy(values: seq<real>) returns (sorted: seq<real>)
    ensures sorted == SortAsc(values)
  {
    var a := new real[|values|](i requires 0 <= i < |values| => values[i]);
    assert a[..] == values;
    SortReals(a);
    sorted := a[..];
  }
}
