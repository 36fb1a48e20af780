/** The continuum of src/hashkit/gf_ketama.c: how many points a server gets, and which
    point a hash belongs to. */
module Continuum {
  datatype Point = Point(index: nat, value: nat)

  ghost predicate Sorted(c: seq<Point>) {
    forall i, j :: 0 <= i < j < |c| ==> c[i].value <= c[j].value
  }

  // ---------- dispatch ----------

  /** The first point that is not below the hash. */
  function First(c: seq<Point>, hash: nat): (k: nat)
    ensures k <= |c| && (forall i :: 0 <= i < k ==> c[i].value < hash) && (k < |c| ==> c[k].value >= hash)
  {
    if c == [] || c[0].value >= hash then 0 else 1 + First(c[1..], hash)
  }

  lemma {:induction false} FirstIs(c: seq<Point>, hash: nat, k: nat)
    requires k <= |c| && (forall i :: 0 <= i < k ==> c[i].value < hash) && (k < |c| ==> c[k].value >= hash)
    ensures First(c, hash) == k
  {
    if k > 0 {
      FirstIs(c[1..], hash, k - 1);
    }
  }

  /** The server a hash belongs to: that of the first point not below it, or else that of
      point 0. */
  function Owner(c: seq<Point>, hash: nat): nat
    requires c != []
  {
    var k := First(c, hash);
    if k == |c| then c[0].index else c[k].index
  }

  /** In terms of the points alone. */
  lemma OwnerIs(c: seq<Point>, hash: nat)
    requires c != []
    ensures (forall i :: 0 <= i < |c| ==> c[i].value < hash) ==> Owner(c, hash) == c[0].index
    ensures forall k :: 0 <= k < |c| && c[k].value >= hash && (forall i :: 0 <= i < k ==> c[i].value < hash) ==>
      Owner(c, hash) == c[k].index
  {
    hide First;
  }

  /** ketama_dispatch */
  method Dispatch(continuum: array<Point>, ncontinuum: nat, hash: nat) returns (index: nat)
    requires 0 < ncontinuum <= continuum.Length && Sorted(continuum[..ncontinuum])
    ensures index == Owner(continuum[..ncontinuum], hash)
    ensures (forall i :: 0 <= i < ncontinuum ==> continuum[i].value < hash) ==> index == continuum[0].index
    ensures forall k :: 0 <= k < ncontinuum && continuum[k].value >= hash &&
                        (forall i :: 0 <= i < k ==> continuum[i].value < hash) ==>
      index == continuum[k].index
  {
    var left, right := 0, ncontinuum;
    while left < right
      invariant 0 <= left <= right <= ncontinuum
      invariant forall i :: 0 <= i < left ==> continuum[i].value < hash
      invariant forall i :: right <= i < ncontinuum ==> continuum[i].value >= hash
    {
      var middle := left + (right - left) / 2;
      if continuum[middle].value < hash {
        assert forall i :: 0 <= i < middle ==>
          continuum[..ncontinuum][i].value <= continuum[..ncontinuum][middle].value;
        left := middle + 1;
      } else {
        assert forall i :: middle < i < ncontinuum ==>
          continuum[..ncontinuum][middle].value <= continuum[..ncontinuum][i].value;
        right := middle;
      }
    }
    var c := continuum[..ncontinuum];
    FirstIs(c, hash, right);
    if right == ncontinuum {
      right := 0;
    }
    index := continuum[right].index;
  }

  // ---------- taking one server's points away ----------

  /** The points that are not those of server s. */
  ghost function Without(c: seq<Point>, s: nat): seq<Point> {
    if c == [] then [] else (if c[0].index == s then [] else [c[0]]) + Without(c[1..], s)
  }

  lemma {:induction false} WithoutMembers(c: seq<Point>, s: nat)
    ensures forall p :: p in Without(c, s) <==> p in c && p.index != s
  {
    if c != [] {
      WithoutMembers(c[1..], s);
    }
  }

  lemma WithoutCons(p: Point, c: seq<Point>, s: nat)
    ensures Without([p] + c, s) == if p.index == s then Without(c, s) else [p] + Without(c, s)
  {
    assert ([p] + c)[1..] == c;
  }

  lemma FirstCons(p: Point, c: seq<Point>, hash: nat)
    ensures First([p] + c, hash) == if p.value >= hash then 0 else 1 + First(c, hash)
  {
    assert ([p] + c)[1..] == c;
  }

  lemma {:induction false} WithoutFirst(c: seq<Point>, s: nat, hash: nat)
    requires First(c, hash) < |c| && c[First(c, hash)].index != s
    ensures First(Without(c, s), hash) < |Without(c, s)|
    ensures Without(c, s)[First(Without(c, s), hash)] == c[First(c, hash)]
  {
    hide First, Without;
    WithoutCons(c[0], c[1..], s);
    FirstCons(c[0], c[1..], hash);
    FirstCons(c[0], Without(c[1..], s), hash);
    assert c == [c[0]] + c[1..];
    if c[0].value < hash {
      WithoutFirst(c[1..], s, hash);
    }
  }

  lemma {:induction false} WithoutNone(c: seq<Point>, s: nat, hash: nat)
    requires First(c, hash) == |c|
    ensures First(Without(c, s), hash) == |Without(c, s)|
  {
    var r := Without(c, s);
    WithoutMembers(c, s);
    assert forall i :: 0 <= i < |c| ==> c[i].value < hash;
    assert forall i :: 0 <= i < |r| ==> r[i] in c;
  }

  /** A hash that did not belong to server s stays where it was. */
  lemma OnlyItsOwn(c: seq<Point>, s: nat, hash: nat)
    requires c != [] && Owner(c, hash) != s
    ensures Without(c, s) != [] && Owner(Without(c, s), hash) == Owner(c, hash)
  {
    if First(c, hash) < |c| {
      WithoutFirst(c, s, hash);
    } else {
      WithoutNone(c, s, hash);
      assert Without(c, s)[0] == c[0];
    }
  }

  // ---------- sorting ----------

  ghost predicate DistinctValues(c: seq<Point>) {
    forall i, j :: 0 <= i < j < |c| ==> c[i].value != c[j].value
  }

  function Insert(p: Point, c: seq<Point>): seq<Point> {
    if c == [] || p.value <= c[0].value then [p] + c else [c[0]] + Insert(p, c[1..])
  }

  function Sort(c: seq<Point>): seq<Point> {
    if c == [] then [] else Insert(c[0], Sort(c[1..]))
  }

  lemma {:induction false} InsertKeeps(p: Point, c: seq<Point>)
    ensures multiset(Insert(p, c)) == multiset(c) + multiset{p}
  {
    if c != [] && p.value > c[0].value {
      InsertKeeps(p, c[1..]);
      assert c == [c[0]] + c[1..];
    }
  }

  lemma {:induction false} InsertSorts(p: Point, c: seq<Point>)
    requires Sorted(c)
    ensures Sorted(Insert(p, c))
  {
    if c != [] && p.value > c[0].value {
      InsertSorts(p, c[1..]);
      InsertKeeps(p, c[1..]);
      var r := Insert(p, c[1..]);
      forall i | 0 <= i < |r| ensures c[0].value <= r[i].value {
        assert r[i] in multiset(r);
        assert r[i] == p || r[i] in c[1..];
      }
    }
  }

  lemma {:induction false} SortSorts(c: seq<Point>)
    ensures Sorted(Sort(c)) && multiset(Sort(c)) == multiset(c) && |Sort(c)| == |c|
  {
    hide Sorted, Insert;
    if c == [] {
      NoneSorted();
    } else {
      SortSorts(c[1..]);
      InsertSorts(c[0], Sort(c[1..]));
      InsertKeeps(c[0], Sort(c[1..]));
      assert c == [c[0]] + c[1..];
    }
    assert |multiset(Sort(c))| == |Sort(c)| && |multiset(c)| == |c|;
  }

  lemma NoneSorted()
    ensures Sorted([])
  {
  }

  lemma SameFirst(c: seq<Point>, d: seq<Point>)
    requires Sorted(c) && Sorted(d) && DistinctValues(c) && c != [] && d != [] && c[0] in d && d[0] in c
    ensures c[0] == d[0]
  {
    var i :| 0 <= i < |c| && c[i] == d[0];
    var j :| 0 <= j < |d| && d[j] == c[0];
    assert c[0].value <= c[i].value;
    assert d[0].value <= d[j].value;
  }

  lemma SameRest(c: seq<Point>, d: seq<Point>)
    requires c != [] && d != [] && multiset(c) == multiset(d) && c[0] == d[0]
    ensures multiset(c[1..]) == multiset(d[1..])
  {
    assert c == [c[0]] + c[1..] && d == [d[0]] + d[1..];
    assert multiset(c[1..]) == multiset(c) - multiset{c[0]} == multiset(d[1..]);
  }

  lemma SortedRest(c: seq<Point>)
    requires Sorted(c) && c != []
    ensures Sorted(c[1..]) && (DistinctValues(c) ==> DistinctValues(c[1..]))
  {
  }

  /** A sorted sequence is known from its points when no two have the same value. */
  lemma {:induction false} SortedUnique(c: seq<Point>, d: seq<Point>)
    requires Sorted(c) && Sorted(d) && multiset(c) == multiset(d) && DistinctValues(c)
    ensures c == d
  {
    assert |multiset(c)| == |c| && |multiset(d)| == |d|;
    if c != [] {
      assert c[0] in multiset(d) && d[0] in multiset(c);
      SameFirst(c, d);
      SameRest(c, d);
      SortedRest(c);
      SortedRest(d);
      hide Sorted, DistinctValues;
      SortedUnique(c[1..], d[1..]);
      assert c == [c[0]] + c[1..] && d == [d[0]] + d[1..];
    }
  }

  lemma {:induction false} WithoutSorted(c: seq<Point>, s: nat)
    requires Sorted(c)
    ensures Sorted(Without(c, s))
  {
    if c != [] {
      WithoutSorted(c[1..], s);
      WithoutMembers(c[1..], s);
      var r := Without(c[1..], s);
      assert forall i :: 0 <= i < |r| ==> r[i] in c[1..];
    }
  }

  lemma WithoutNil(s: nat)
    ensures Without([], s) == []
  {
  }

  lemma {:induction false} WithoutConcat(c: seq<Point>, d: seq<Point>, s: nat)
    ensures Without(c + d, s) == Without(c, s) + Without(d, s)
  {
    WithoutNil(s);
    hide Without;
    if c == [] {
      assert c + d == d;
    } else {
      WithoutConcat(c[1..], d, s);
      assert c + d == [c[0]] + (c[1..] + d) && c == [c[0]] + c[1..];
      WithoutCons(c[0], c[1..] + d, s);
      WithoutCons(c[0], c[1..], s);
    }
  }

  /** The multiset of what stays depends only on the multiset. */
  lemma {:induction false} WithoutMultiset(c: seq<Point>, s: nat, p: Point)
    ensures multiset(Without(c, s))[p] == if p.index == s then 0 else multiset(c)[p]
  {
    if c != [] {
      WithoutMultiset(c[1..], s, p);
      assert c == [c[0]] + c[1..];
      WithoutCons(c[0], c[1..], s);
    }
  }

  /** Two sorted continua, the second made of the points of the first but for those of
      server s: only hashes of s change hands. */
  lemma EjectionMoves(points: seq<Point>, s: nat, c: seq<Point>, d: seq<Point>, hash: nat)
    requires Sorted(c) && multiset(c) == multiset(points) && DistinctValues(c)
    requires Sorted(d) && multiset(d) == multiset(Without(points, s))
    requires c != [] && Owner(c, hash) != s
    ensures d != [] && Owner(d, hash) == Owner(c, hash)
  {
    hide Sorted, DistinctValues, Owner, Without;
    OnlyItsOwn(c, s, hash);
    WithoutSorted(c, s);
    forall p ensures multiset(Without(c, s))[p] == multiset(d)[p] {
      WithoutMultiset(c, s, p);
      WithoutMultiset(points, s, p);
    }
    WithoutDistinct(c, s);
    SortedUnique(Without(c, s), d);
  }

  lemma {:induction false} WithoutDistinct(c: seq<Point>, s: nat)
    requires DistinctValues(c)
    ensures DistinctValues(Without(c, s))
  {
    if c != [] {
      WithoutDistinct(c[1..], s);
      WithoutMembers(c[1..], s);
      var r := Without(c[1..], s);
      assert forall i :: 0 <= i < |r| ==> r[i] in c[1..];
    }
  }
}
