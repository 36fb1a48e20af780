/** A server pool of src/gf_server.c with its rebuilds by src/hashkit/gf_ketama.c and
    src/hashkit/gf_modula.c: which servers are live, and where the points go. */
module Pool {
  import opened Continuum

  class Server {
    const weight: nat
    var nextRetry: int
    var failureCount: nat

    constructor (weight: nat)
      requires weight > 0
      ensures this.weight == weight && nextRetry == 0 && failureCount == 0
    {
      this.weight, nextRetry, failureCount := weight, 0, 0;
    }
  }

  // ---------- which servers are live ----------

  predicate Live(eject: bool, retry: int, now: int) {
    !eject || retry <= now
  }

  function CountLive(eject: bool, retries: seq<int>, now: int): (n: nat)
    ensures n <= |retries|
    ensures n == |retries| <==> forall i :: 0 <= i < |retries| ==> Live(eject, retries[i], now)
    ensures n > 0 <==> exists i :: 0 <= i < |retries| && Live(eject, retries[i], now)
  {
    if retries == [] then 0
    else
      var k := |retries| - 1;
      var n := CountLive(eject, retries[..k], now);
      assert forall i :: 0 <= i < k ==> retries[..k][i] == retries[i];
      if Live(eject, retries[k], now) then n + 1 else n
  }

  function TotalWeight(eject: bool, retries: seq<int>, weights: seq<nat>, now: int): (w: nat)
    requires |retries| == |weights|
  {
    if retries == [] then 0
    else
      var k := |retries| - 1;
      TotalWeight(eject, retries[..k], weights[..k], now) + if Live(eject, retries[k], now) then weights[k] else 0
  }

  /** The next time to rebuild: the earliest retry of a server that is not live, or 0. */
  ghost predicate Earliest(eject: bool, retries: seq<int>, now: int, t: int) {
    if CountLive(eject, retries, now) == |retries| then t == 0
    else
      && (forall i :: 0 <= i < |retries| && !Live(eject, retries[i], now) ==> t <= retries[i])
      && exists i :: 0 <= i < |retries| && !Live(eject, retries[i], now) && t == retries[i]
  }

  function RetriesOf(servers: seq<Server>): (r: seq<int>)
    reads servers`nextRetry
    ensures |r| == |servers| && forall i :: 0 <= i < |servers| ==> r[i] == servers[i].nextRetry
  {
    if servers == [] then [] else RetriesOf(servers[..|servers| - 1]) + [servers[|servers| - 1].nextRetry]
  }

  function WeightsOf(servers: seq<Server>): (w: seq<nat>)
    ensures |w| == |servers| && forall i :: 0 <= i < |servers| ==> w[i] == servers[i].weight
  {
    if servers == [] then [] else WeightsOf(servers[..|servers| - 1]) + [servers[|servers| - 1].weight]
  }

  ghost predicate NoDup(servers: seq<Server>) {
    forall i, j :: 0 <= i < j < |servers| ==> servers[i] != servers[j]
  }

  /** One round of the counting loop. */
  method CensusOne(server: Server, eject: bool, now: int, nlive0: nat, weight0: nat, rebuild0: int)
    returns (nlive: nat, totalWeight: nat, nextRebuild: int)
    requires now >= 0 && rebuild0 >= 0
    modifies server`nextRetry
    ensures
      var was := old(server.nextRetry);
      var live := Live(eject, was, now);
      && nlive == nlive0 + (if live then 1 else 0) && totalWeight == weight0 + (if live then server.weight else 0)
      && nextRebuild == (if live || (rebuild0 != 0 && rebuild0 <= was) then rebuild0 else was) && nextRebuild >= 0
      && server.nextRetry == if eject && was <= now then 0 else was
  {
    nlive, totalWeight, nextRebuild := nlive0, weight0, rebuild0;
    if eject {
      if server.nextRetry <= now {
        server.nextRetry := 0;
        nlive := nlive + 1;
      } else if nextRebuild == 0 || server.nextRetry < nextRebuild {
        nextRebuild := server.nextRetry;
      }
    } else {
      nlive := nlive + 1;
    }
    if !eject || server.nextRetry <= now {
      totalWeight := totalWeight + server.weight;
    }
  }

  /** The counting loop at the start of both rebuilds: servers whose retry time has come
      are live again. */
  method Census(servers: seq<Server>, eject: bool, now: int) returns (nlive: nat, totalWeight: nat, nextRebuild: int)
    requires NoDup(servers) && now >= 0
    modifies servers`nextRetry
    ensures
      var was := old(RetriesOf(servers));
      && nlive == CountLive(eject, was, now)
      && totalWeight == TotalWeight(eject, was, WeightsOf(servers), now)
      && Earliest(eject, was, now, nextRebuild)
      && forall i :: 0 <= i < |servers| ==> servers[i].nextRetry == if eject && was[i] <= now then 0 else was[i]
  {
    hide *;
    ghost var was, weights := RetriesOf(servers), WeightsOf(servers);
    nlive, totalWeight, nextRebuild := 0, 0, 0;
    var i := 0;
    Readings(servers);
    TallyStart(eject, was, weights, now);
    while i < |servers|
      invariant 0 <= i <= |servers| && Tally(eject, was, weights, now, i, nlive, totalWeight, nextRebuild)
      invariant forall k :: 0 <= k < i ==> servers[k].nextRetry == if eject && was[k] <= now then 0 else was[k]
      invariant forall k :: i <= k < |servers| ==> servers[k].nextRetry == was[k]
    {
      TallyStep(eject, was, weights, now, i, nlive, totalWeight, nextRebuild);
      Others(servers, i);
      nlive, totalWeight, nextRebuild := CensusOne(servers[i], eject, now, nlive, totalWeight, nextRebuild);
      i := i + 1;
    }
    TallyEnd(eject, was, weights, now, nlive, totalWeight, nextRebuild);
  }

  lemma Readings(servers: seq<Server>)
    ensures |RetriesOf(servers)| == |WeightsOf(servers)| == |servers|
    ensures forall i :: 0 <= i < |servers| ==> RetriesOf(servers)[i] == servers[i].nextRetry
    ensures forall i :: 0 <= i < |servers| ==> WeightsOf(servers)[i] == servers[i].weight
  {
  }

  lemma Others(servers: seq<Server>, i: nat)
    requires NoDup(servers) && i < |servers|
    ensures forall k :: 0 <= k < |servers| && k != i ==> servers[k] != servers[i]
  {
  }

  /** What the loop has counted after i servers. */
  ghost predicate Tally(eject: bool, was: seq<int>, weights: seq<nat>, now: int, i: nat, n: nat, w: nat, t: int) {
    && i <= |was| == |weights| && t >= 0
    && n == CountLive(eject, was[..i], now)
    && w == TotalWeight(eject, was[..i], weights[..i], now)
    && Earliest(eject, was[..i], now, t)
  }

  lemma TallyStart(eject: bool, was: seq<int>, weights: seq<nat>, now: int)
    requires |was| == |weights|
    ensures Tally(eject, was, weights, now, 0, 0, 0, 0)
  {
  }

  lemma TallyEnd(eject: bool, was: seq<int>, weights: seq<nat>, now: int, n: nat, w: nat, t: int)
    requires Tally(eject, was, weights, now, |was|, n, w, t)
    ensures n == CountLive(eject, was, now) && w == TotalWeight(eject, was, weights, now) &&
      Earliest(eject, was, now, t)
  {
    assert was[..|was|] == was && weights[..|was|] == weights;
  }

  lemma TallyStep(eject: bool, was: seq<int>, weights: seq<nat>, now: int, i: nat, n: nat, w: nat, t: int)
    requires i < |was| && now >= 0 && Tally(eject, was, weights, now, i, n, w, t)
    ensures
      var live := Live(eject, was[i], now);
      Tally(eject, was, weights, now, i + 1, n + (if live then 1 else 0), w + (if live then weights[i] else 0),
            if live || (t != 0 && t <= was[i]) then t else was[i])
  {
    assert was[..i + 1][..i] == was[..i] && weights[..i + 1][..i] == weights[..i];
    var p, q := was[..i], was[..i + 1];
    assert forall k :: 0 <= k < i ==> q[k] == p[k];
    assert q[i] == was[i];
  }

  // ---------- the points of a rebuild ----------

  /** The value of point x (0 to 3) of a server's g-th string of name and number. */
  type PointHash = (nat, nat, nat) -> nat

  /** Groups of four points for a server: its share of 40 for each live server. */
  function Share(weight: nat, total: nat, nlive: nat): nat
    requires total > 0
  {
    40 * nlive * weight / total
  }

  function PointsOf(s: nat, groups: nat, point: PointHash): (c: seq<Point>)
    ensures |c| == 4 * groups && forall p :: p in c ==> p.index == s
  {
    if groups == 0 then []
    else
      var g := groups - 1;
      PointsOf(s, g, point) +
      [Point(s, point(s, g, 0)), Point(s, point(s, g, 1)), Point(s, point(s, g, 2)), Point(s, point(s, g, 3))]
  }

  /** The points of all live servers, in the order of the servers. */
  function Build(eject: bool, retries: seq<int>, weights: seq<nat>, now: int, total: nat, nlive: nat, point: PointHash)
    : seq<Point>
    requires |retries| == |weights| && total > 0
  {
    if retries == [] then []
    else
      var k := |retries| - 1;
      Build(eject, retries[..k], weights[..k], now, total, nlive, point) +
      if Live(eject, retries[k], now) then PointsOf(k, Share(weights[k], total, nlive), point) else []
  }

  /** One more server, and room for it in what all take. */
  lemma BuildStep(eject: bool, retries: seq<int>, weights: seq<nat>, now: int, total: nat, nlive: nat, point: PointHash,
                  i: nat)
    requires i < |retries| == |weights| && total > 0
    ensures Build(eject, retries[..i + 1], weights[..i + 1], now, total, nlive, point) ==
            Build(eject, retries[..i], weights[..i], now, total, nlive, point) +
            if Live(eject, retries[i], now) then PointsOf(i, Share(weights[i], total, nlive), point) else []
    ensures |Build(eject, retries[..i + 1], weights[..i + 1], now, total, nlive, point)| <=
            |Build(eject, retries, weights, now, total, nlive, point)|
  {
    hide Share, PointsOf;
    assert retries[..i + 1][..i] == retries[..i] && weights[..i + 1][..i] == weights[..i];
    BuildGrows(eject, retries, weights, now, total, nlive, point, i + 1);
  }

  lemma {:induction false} BuildGrows(eject: bool, retries: seq<int>, weights: seq<nat>, now: int, total: nat,
                                      nlive: nat, point: PointHash, i: nat)
    requires i <= |retries| == |weights| && total > 0
    ensures |Build(eject, retries[..i], weights[..i], now, total, nlive, point)| <=
            |Build(eject, retries, weights, now, total, nlive, point)|
    decreases |retries|
  {
    hide Share, PointsOf;
    if i < |retries| {
      var k := |retries| - 1;
      assert retries[..k][..i] == retries[..i] && weights[..k][..i] == weights[..i];
      BuildGrows(eject, retries[..k], weights[..k], now, total, nlive, point, i);
    } else {
      assert retries[..i] == retries && weights[..i] == weights;
    }
  }

  lemma ShareBounds(weight: nat, total: nat, nlive: nat)
    requires total > 0
    ensures Share(weight, total, nlive) * total <= 40 * nlive * weight < Share(weight, total, nlive) * total + total
  {
  }

  /** The points so far, times the total weight, against the weight so far. */
  lemma {:induction false} BuildWeighs(eject: bool, retries: seq<int>, weights: seq<nat>, now: int, total: nat,
                                       nlive: nat, point: PointHash)
    requires |retries| == |weights| && total > 0
    ensures
      var n := |Build(eject, retries, weights, now, total, nlive, point)|;
      var w := TotalWeight(eject, retries, weights, now);
      n * total <= 160 * nlive * w <= n * total + 4 * (total - 1) * CountLive(eject, retries, now)
  {
    hide Share, Live, PointsOf;
    if retries != [] {
      var k := |retries| - 1;
      BuildWeighs(eject, retries[..k], weights[..k], now, total, nlive, point);
      var g, w := Share(weights[k], total, nlive), TotalWeight(eject, retries[..k], weights[..k], now);
      var n := |Build(eject, retries[..k], weights[..k], now, total, nlive, point)|;
      var c := CountLive(eject, retries[..k], now);
      ShareBounds(weights[k], total, nlive);
      Weigh(n, g, total, nlive, w, weights[k], c);
      assert Live(eject, retries[k], now) ==>
        |Build(eject, retries, weights, now, total, nlive, point)| == n + 4 * g;
    } else {
      assert 160 * nlive * 0 == 0 && 4 * (total - 1) * 0 == 0;
    }
  }

  lemma Weigh(n: nat, g: nat, total: nat, nlive: nat, w: nat, v: nat, c: nat)
    requires total > 0 && n * total <= 160 * nlive * w <= n * total + 4 * (total - 1) * c
    requires g * total <= 40 * nlive * v < g * total + total
    ensures (n + 4 * g) * total <= 160 * nlive * (w + v) <= (n + 4 * g) * total + 4 * (total - 1) * (c + 1)
  {
    assert (n + 4 * g) * total == n * total + 4 * (g * total);
    assert 160 * nlive * (w + v) == 160 * nlive * w + 4 * (40 * nlive * v);
    assert 4 * (total - 1) * (c + 1) == 4 * (total - 1) * c + 4 * (total - 1);
  }

  /** With a live server there are at least 160 points, and at most 160 for each. */
  lemma BuildBounds(eject: bool, retries: seq<int>, weights: seq<nat>, now: int, point: PointHash)
    requires |retries| == |weights| && CountLive(eject, retries, now) > 0 &&
      forall i :: 0 <= i < |weights| ==> weights[i] > 0
    ensures TotalWeight(eject, retries, weights, now) > 0
    ensures
      var total, nlive := TotalWeight(eject, retries, weights, now), CountLive(eject, retries, now);
      160 <= |Build(eject, retries, weights, now, total, nlive, point)| <= 160 * nlive
  {
    WeightPositive(eject, retries, weights, now);
    var total, nlive := TotalWeight(eject, retries, weights, now), CountLive(eject, retries, now);
    BuildWeighs(eject, retries, weights, now, total, nlive, point);
    Bounded(|Build(eject, retries, weights, now, total, nlive, point)|, total, nlive);
    var groups := FourFold(eject, retries, weights, now, total, nlive, point);
  }

  lemma Bounded(n: nat, total: nat, nlive: nat)
    requires total > 0 && nlive > 0 && n * total <= 160 * nlive * total <= n * total + 4 * (total - 1) * nlive
    ensures n <= 160 * nlive && n > 156 * nlive
  {
    Times(n, 160 * nlive, total);
    Times(n, 156 * nlive, total);
    assert 4 * (total - 1) * nlive == 4 * nlive * total - 4 * nlive;
  }

  lemma Times(a: nat, b: nat, t: nat)
    requires t > 0
    ensures a > b ==> a * t >= b * t + t
    ensures a <= b ==> a * t <= b * t
  {
    if a > b {
      assert a * t == (b + 1) * t + (a - b - 1) * t;
    } else {
      assert b * t == a * t + (b - a) * t;
    }
  }

  lemma {:induction false} FourFold(eject: bool, retries: seq<int>, weights: seq<nat>, now: int, total: nat,
                                    nlive: nat, point: PointHash) returns (groups: nat)
    requires |retries| == |weights| && total > 0
    ensures |Build(eject, retries, weights, now, total, nlive, point)| == 4 * groups
  {
    groups := 0;
    if retries != [] {
      var k := |retries| - 1;
      groups := FourFold(eject, retries[..k], weights[..k], now, total, nlive, point);
      hide Share, Live;
      if Live(eject, retries[k], now) {
        groups := groups + Share(weights[k], total, nlive);
      }
    }
  }

  lemma {:induction false} WeightPositive(eject: bool, retries: seq<int>, weights: seq<nat>, now: int)
    requires |retries| == |weights| && forall i :: 0 <= i < |weights| ==> weights[i] > 0
    ensures CountLive(eject, retries, now) > 0 ==> TotalWeight(eject, retries, weights, now) > 0
  {
    if retries != [] {
      var k := |retries| - 1;
      WeightPositive(eject, retries[..k], weights[..k], now);
    }
  }

  // ---------- ejecting one of several servers of equal weight ----------

  lemma {:induction false} EqualWeights(eject: bool, retries: seq<int>, weights: seq<nat>, now: int, w: nat)
    requires |retries| == |weights| && forall i :: 0 <= i < |weights| ==> weights[i] == w
    ensures TotalWeight(eject, retries, weights, now) == CountLive(eject, retries, now) * w
  {
    if retries != [] {
      var k := |retries| - 1;
      EqualWeights(eject, retries[..k], weights[..k], now, w);
      hide Live;
      OneMore(CountLive(eject, retries[..k], now), w);
    }
  }

  lemma OneMore(n: nat, w: nat)
    ensures (n + 1) * w == n * w + w
  {
  }

  lemma EqualShare(w: nat, nlive: nat)
    requires w > 0 && nlive > 0
    ensures nlive * w > 0 && Share(w, nlive * w, nlive) == 40
  {
    var t := nlive * w;
    assert t > 0;
    assert 40 * nlive * w == 40 * t;
    assert 40 * t / t == 40 by { Quotient(t, 40); }
  }

  lemma Quotient(t: nat, q: nat)
    requires t > 0
    ensures q * t / t == q
  {
    var d := q * t / t;
    assert d * t <= q * t < d * t + t;
    Times(q, d, t);
    Times(d, q, t);
  }

  lemma {:induction false} WithoutAll(c: seq<Point>, s: nat)
    ensures (forall p :: p in c ==> p.index == s) ==> Without(c, s) == []
    ensures (forall p :: p in c ==> p.index != s) ==> Without(c, s) == c
  {
    if c != [] {
      WithoutAll(c[1..], s);
      assert c == [c[0]] + c[1..];
      WithoutCons(c[0], c[1..], s);
    }
  }

  /** Two censuses, each of some retry times at some time, find the same servers live,
      apart from server s, which is not live any more. */
  ghost predicate OnlyGone(was: seq<int>, at: int, next: seq<int>, now: int, s: nat) {
    && |was| == |next| && s < |next| && !Live(true, next[s], now)
    && forall i :: 0 <= i < |was| && i != s ==> (Live(true, was[i], at) <==> Live(true, next[i], now))
  }

  /** The points of the live servers without those of s are the points of the live
      servers when s is not live, if every server has the same share. */
  lemma {:induction false} BuildWithout(
    was: seq<int>, at: int, next: seq<int>, now: int, weights: seq<nat>, w: nat, s: nat,
    t: nat, n: nat, t': nat, n': nat, point: PointHash)
    requires |was| == |next| == |weights| && t > 0 && t' > 0
    requires forall i :: 0 <= i < |weights| ==> weights[i] == w
    requires forall i :: 0 <= i < |was| && i != s ==> (Live(true, was[i], at) <==> Live(true, next[i], now))
    requires s < |next| ==> !Live(true, next[s], now)
    requires Share(w, t, n) == Share(w, t', n')
    ensures Without(Build(true, was, weights, at, t, n, point), s) == Build(true, next, weights, now, t', n', point)
  {
    hide Without, Share;
    if was != [] {
      var k := |was| - 1;
      BuildWithout(was[..k], at, next[..k], now, weights[..k], w, s, t, n, t', n', point);
      var points := PointsOf(k, Share(w, t, n), point);
      var before := Build(true, was[..k], weights[..k], at, t, n, point);
      WithoutConcat(before, points, s);
      WithoutAll(points, s);
      assert before + [] == before && Without(before, s) + [] == Without(before, s);
    } else {
      WithoutAll([], s);
    }
  }

  /** c are the points of the servers live at a census, in order. */
  ghost predicate Continuous(c: seq<Point>, was: seq<int>, weights: seq<nat>, at: int, point: PointHash)
    requires |was| == |weights|
  {
    && CountLive(true, was, at) > 0 && TotalWeight(true, was, weights, at) > 0 && Sorted(c) && c != []
    && multiset(c) == multiset(
         Build(true, was, weights, at, TotalWeight(true, was, weights, at), CountLive(true, was, at), point))
  }

  /** With equal weights and no two points of the same value, when server s has gone only
      the hashes that were its own have moved. */
  lemma EjectionMovesOnlyItsOwn(
    was: seq<int>, at: int, next: seq<int>, now: int, weights: seq<nat>, w: nat, s: nat, point: PointHash,
    c: seq<Point>, d: seq<Point>, hash: nat)
    requires |was| == |weights| && w > 0 && forall i :: 0 <= i < |weights| ==> weights[i] == w
    requires OnlyGone(was, at, next, now, s)
    requires Continuous(c, was, weights, at, point) && DistinctValues(c)
    requires Continuous(d, next, weights, now, point)
    requires Owner(c, hash) != s
    ensures Owner(d, hash) == Owner(c, hash)
  {
    hide Sorted, DistinctValues, Owner, Without, Share;
    var n, n' := CountLive(true, was, at), CountLive(true, next, now);
    EqualWeights(true, was, weights, at, w);
    EqualWeights(true, next, weights, now, w);
    EqualShare(w, n);
    EqualShare(w, n');
    var points := Build(true, was, weights, at, n * w, n, point);
    BuildWithout(was, at, next, now, weights, w, s, n * w, n, n' * w, n', point);
    EjectionMoves(points, s, c, d, hash);
  }

  // ---------- modula ----------

  function Repeat(s: nat, n: nat): (c: seq<Point>)
    ensures |c| == n && forall p :: p in c ==> p.index == s
  {
    if n == 0 then [] else Repeat(s, n - 1) + [Point(s, 0)]
  }

  function BuildModula(eject: bool, retries: seq<int>, weights: seq<nat>, now: int): (c: seq<Point>)
    requires |retries| == |weights|
    ensures |c| == TotalWeight(eject, retries, weights, now)
  {
    if retries == [] then []
    else
      var k := |retries| - 1;
      BuildModula(eject, retries[..k], weights[..k], now) +
      if Live(eject, retries[k], now) then Repeat(k, weights[k]) else []
  }

  lemma ModulaStep(eject: bool, retries: seq<int>, weights: seq<nat>, now: int, i: nat)
    requires i < |retries| == |weights|
    ensures BuildModula(eject, retries[..i + 1], weights[..i + 1], now) ==
            BuildModula(eject, retries[..i], weights[..i], now) +
            if Live(eject, retries[i], now) then Repeat(i, weights[i]) else []
    ensures |BuildModula(eject, retries[..i + 1], weights[..i + 1], now)| <= TotalWeight(eject, retries, weights, now)
  {
    hide Repeat;
    assert retries[..i + 1][..i] == retries[..i] && weights[..i + 1][..i] == weights[..i];
    WeightGrows(eject, retries, weights, now, i + 1);
  }

  lemma {:induction false} WeightGrows(eject: bool, retries: seq<int>, weights: seq<nat>, now: int, i: nat)
    requires i <= |retries| == |weights|
    ensures TotalWeight(eject, retries[..i], weights[..i], now) <= TotalWeight(eject, retries, weights, now)
    decreases |retries|
  {
    if i < |retries| {
      var k := |retries| - 1;
      assert retries[..k][..i] == retries[..i] && weights[..k][..i] == weights[..i];
      WeightGrows(eject, retries[..k], weights[..k], now, i);
    } else {
      assert retries[..i] == retries && weights[..i] == weights;
    }
  }

  /** How many points belong to server s. */
  ghost function Count(c: seq<Point>, s: nat): nat {
    if c == [] then 0 else Count(c[..|c| - 1], s) + if c[|c| - 1].index == s then 1 else 0
  }

  lemma {:induction false} CountConcat(c: seq<Point>, d: seq<Point>, s: nat)
    ensures Count(c + d, s) == Count(c, s) + Count(d, s)
  {
    if d == [] {
      assert c + d == c;
    } else {
      assert (c + d)[..|c + d| - 1] == c + d[..|d| - 1];
      CountConcat(c, d[..|d| - 1], s);
    }
  }

  lemma {:induction false} CountRepeat(k: nat, n: nat, s: nat)
    ensures Count(Repeat(k, n), s) == if k == s then n else 0
  {
    if n > 0 {
      CountRepeat(k, n - 1, s);
      CountConcat(Repeat(k, n - 1), [Point(k, 0)], s);
      assert Count([Point(k, 0)][..0], s) == 0;
    }
  }

  /** Of the residues modulo the total weight, each live server has as many as its weight
      says, and no other server has any. */
  lemma {:induction false} ModulaShares(eject: bool, retries: seq<int>, weights: seq<nat>, now: int, s: nat)
    requires |retries| == |weights|
    ensures Count(BuildModula(eject, retries, weights, now), s) ==
            if s < |retries| && Live(eject, retries[s], now) then weights[s] else 0
  {
    if retries != [] {
      var k := |retries| - 1;
      var before, points := BuildModula(eject, retries[..k], weights[..k], now), Repeat(k, weights[k]);
      ModulaShares(eject, retries[..k], weights[..k], now, s);
      CountConcat(before, points, s);
      CountRepeat(k, weights[k], s);
      assert before + [] == before;
    }
  }

  /** Residue r belongs to the live server whose weight, laid out behind those of the live
      servers before it, covers r. */
  lemma {:induction false} ModulaAt(eject: bool, retries: seq<int>, weights: seq<nat>, now: int, r: nat)
    requires |retries| == |weights| && r < TotalWeight(eject, retries, weights, now)
    ensures
      var s := BuildModula(eject, retries, weights, now)[r].index;
      && s < |retries| && Live(eject, retries[s], now)
      && TotalWeight(eject, retries[..s], weights[..s], now) <= r
      && r < TotalWeight(eject, retries[..s], weights[..s], now) + weights[s]
  {
    hide Repeat;
    var k := |retries| - 1;
    var before := TotalWeight(eject, retries[..k], weights[..k], now);
    if r < before {
      ModulaAt(eject, retries[..k], weights[..k], now, r);
      var s := BuildModula(eject, retries[..k], weights[..k], now)[r].index;
      assert BuildModula(eject, retries, weights, now)[r].index == s;
      assert retries[..k][..s] == retries[..s] && weights[..k][..s] == weights[..s];
    } else {
      assert BuildModula(eject, retries, weights, now)[r] == Repeat(k, weights[k])[r - before];
    }
  }

  /** The points of a server, one by one: those of a group behind each other, and the groups
      in turn. */
  lemma {:induction false} PointsAt(s: nat, groups: nat, point: PointHash, g: nat, x: nat)
    requires g < groups && x < 4
    ensures PointsOf(s, groups, point)[4 * g + x] == Point(s, point(s, g, x))
  {
    if g < groups - 1 {
      PointsAt(s, groups - 1, point, g, x);
    }
  }

  /** One of the values of the first groups of a server. */
  ghost predicate InGroups(s: nat, groups: nat, point: PointHash, value: nat) {
    exists g: nat, x: nat :: g < groups && x < 4 && value == point(s, g, x)
  }

  /** The points of a rebuild are exactly those of the groups of the live servers. */
  lemma {:induction false} BuildHas(eject: bool, retries: seq<int>, weights: seq<nat>, now: int, total: nat,
                                    nlive: nat, point: PointHash, p: Point)
    requires |retries| == |weights| && total > 0
    ensures p in Build(eject, retries, weights, now, total, nlive, point) <==>
      && p.index < |retries| && Live(eject, retries[p.index], now)
      && InGroups(p.index, Share(weights[p.index], total, nlive), point, p.value)
  {
    hide Share, PointsOf, InGroups, Live;
    if retries != [] {
      var k := |retries| - 1;
      BuildHas(eject, retries[..k], weights[..k], now, total, nlive, point, p);
      PointsHave(k, Share(weights[k], total, nlive), point, p);
    }
  }

  lemma PointsHave(s: nat, groups: nat, point: PointHash, p: Point)
    ensures p in PointsOf(s, groups, point) <==> p.index == s && InGroups(s, groups, point, p.value)
  {
    var c := PointsOf(s, groups, point);
    if p in c {
      var i :| 0 <= i < |c| && c[i] == p;
      PointsAt(s, groups, point, i / 4, i % 4);
      assert i / 4 < groups && p.value == point(s, i / 4, i % 4);
    }
    forall g: nat, x: nat | p.index == s && g < groups && x < 4 && p.value == point(s, g, x) ensures p in c {
      PointsAt(s, groups, point, g, x);
    }
  }

  // ---------- every point belongs to a live server ----------

  ghost predicate LiveIndices(c: seq<Point>, eject: bool, retries: seq<int>, now: int) {
    forall p :: p in c ==> p.index < |retries| && Live(eject, retries[p.index], now)
  }

  lemma {:induction false} BuildLive(eject: bool, retries: seq<int>, weights: seq<nat>, now: int, total: nat,
                                     nlive: nat, point: PointHash)
    requires |retries| == |weights| && total > 0
    ensures LiveIndices(Build(eject, retries, weights, now, total, nlive, point), eject, retries, now)
    ensures LiveIndices(BuildModula(eject, retries, weights, now), eject, retries, now)
  {
    if retries != [] {
      BuildLive(eject, retries[..|retries| - 1], weights[..|retries| - 1], now, total, nlive, point);
      hide Share;
    }
  }
}
