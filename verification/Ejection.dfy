/** The pool object of src/gf_server.c: failures, retries and rebuilds over time, and the
    continuum kept in an array. */
module Ejection {
  import opened Continuum
  import opened Pool

  const ADDITION := 10
  const POINTS_PER_SERVER := 160

  class ServerPool {
    const servers: seq<Server>
    const eject: bool             // auto_eject_hosts
    const failureLimit: nat
    const retryTimeout: int
    const ketama: bool            // the distribution, or else modula
    const point: PointHash
    var nlive: nat
    var nextRebuild: int
    var continuum: array<Point>
    var ncontinuum: nat
    var nserverContinuum: nat
    ghost var at: int             // the time of the last rebuild,
    ghost var seen: seq<int>      // and the retry times it found

    ghost function Weights(): seq<nat> {
      WeightsOf(servers)
    }

    ghost predicate Shaped()
      reads this
    {
      && servers != [] && NoDup(servers) && (forall s :: s in servers ==> s.weight > 0)
      && continuum.Length == nserverContinuum * (if ketama then POINTS_PER_SERVER else 1)
    }

    /** What the last rebuild left, if it found a live server. */
    ghost predicate Built()
      reads this, continuum
      requires |seen| == |servers|
    {
      && 0 < ncontinuum <= continuum.Length
      && TotalWeight(eject, seen, Weights(), at) > 0
      && if ketama then
           && Sorted(continuum[..ncontinuum])
           && multiset(continuum[..ncontinuum]) ==
              multiset(Build(eject, seen, Weights(), at, TotalWeight(eject, seen, Weights(), at), nlive, point))
         else continuum[..ncontinuum] == BuildModula(eject, seen, Weights(), at)
    }

    /** What the pool knows about its servers since the last rebuild: those that were live
        are; the others may come back, by a response, but not stay away longer. */
    ghost predicate Known()
      reads this, servers`nextRetry
    {
      && |seen| == |servers| && at >= 0
      && nlive == CountLive(eject, seen, at) && Earliest(eject, seen, at, nextRebuild)
      && forall i :: 0 <= i < |servers| ==>
           if Live(eject, seen[i], at) then eject ==> servers[i].nextRetry == 0 else servers[i].nextRetry <= seen[i]
    }

    ghost predicate Valid()
      reads this, servers`nextRetry, continuum
    {
      Shaped() && Known() && (nlive > 0 ==> Built())
    }

    /** The points of one server go into the array. */
    method PutServer(s: nat, groups: nat, from: nat) returns (to: nat)
      requires from + 4 * groups <= continuum.Length
      modifies continuum
      ensures to == from + 4 * groups && continuum[..to] == old(continuum[..from]) + PointsOf(s, groups, point)
      ensures forall h: nat, x: nat :: h < groups && x < 4 ==> continuum[from + 4 * h + x] == Point(s, point(s, h, x))
    {
      hide PointsOf, Four;
      to := from;
      var g := 0;
      ghost var before := continuum[..from];
      PointsStart(s);
      assert before + [] == before;
      while g < groups
        invariant 0 <= g <= groups && to == from + 4 * g
        invariant continuum[..to] == before + PointsOf(s, g, point)
      {
        PutGroup(s, g, to);
        PointsMore(s, g);
        assert before + PointsOf(s, g, point) + Four(s, g) == before + PointsOf(s, g + 1, point);
        to, g := to + 4, g + 1;
      }
      forall h: nat, x: nat | h < groups && x < 4 ensures continuum[from + 4 * h + x] == Point(s, point(s, h, x)) {
        PointsAt(s, groups, point, h, x);
        assert continuum[from + 4 * h + x] == continuum[..to][|before| + (4 * h + x)];
      }
    }

    lemma PointsStart(s: nat)
      ensures PointsOf(s, 0, point) == []
    {
    }

    lemma PointsMore(s: nat, g: nat)
      ensures PointsOf(s, g + 1, point) == PointsOf(s, g, point) + Four(s, g)
    {
    }

    ghost function Four(s: nat, g: nat): seq<Point> {
      [Point(s, point(s, g, 0)), Point(s, point(s, g, 1)), Point(s, point(s, g, 2)), Point(s, point(s, g, 3))]
    }

    method PutGroup(s: nat, g: nat, from: nat)
      requires from + 4 <= continuum.Length
      modifies continuum
      ensures continuum[..from + 4] == old(continuum[..from]) + Four(s, g)
    {
      var x := 0;
      while x < 4
        invariant 0 <= x <= 4
        invariant continuum[..from] == old(continuum[..from])
        invariant forall k :: 0 <= k < x ==> continuum[from + k] == Point(s, point(s, g, k))
      {
        continuum[from + x] := Point(s, point(s, g, x));
        x := x + 1;
      }
    }

    /** After the census, a server is passed over exactly when it was not live. */
    ghost predicate Counted(was: seq<int>, now: int)
      reads servers`nextRetry
    {
      && |was| == |servers| && now >= 0
      && forall i :: 0 <= i < |servers| ==> servers[i].nextRetry == if eject && was[i] <= now then 0 else was[i]
    }

    /** All servers have the retry times they had. */
    ghost predicate Kept(was: seq<int>)
      reads servers`nextRetry
    {
      |was| == |servers| && forall i :: 0 <= i < |servers| ==> servers[i].nextRetry == was[i]
    }

    /** The loop of ketama_update that places the points. */
    method FillKetama(now: int, total: nat, ghost was: seq<int>) returns (n: nat)
      requires Counted(was, now) && total > 0
      requires |Build(eject, was, Weights(), now, total, nlive, point)| <= continuum.Length
      modifies continuum
      ensures n <= continuum.Length && continuum[..n] == Build(eject, was, Weights(), now, total, nlive, point)
    {
      hide Build, Share, PointsOf, WeightsOf;
      ghost var weights := WeightsOf(servers);
      Readings(servers);
      n := 0;
      var i := 0;
      BuildNone(now, total);
      assert was[..0] == [] && weights[..0] == [] && continuum[..0] == [];
      while i < |servers|
        invariant 0 <= i <= |servers| && n <= continuum.Length
        invariant continuum[..n] == Build(eject, was[..i], weights[..i], now, total, nlive, point)
      {
        BuildStep(eject, was, weights, now, total, nlive, point, i);
        var server := servers[i];
        if !(eject && server.nextRetry > now) {
          n := PutServer(i, Share(server.weight, total, nlive), n);
        }
        i := i + 1;
      }
      assert was[..i] == was && weights[..i] == weights;
    }

    lemma BuildNone(now: int, total: nat)
      requires total > 0
      ensures Build(eject, [], [], now, total, nlive, point) == [] && BuildModula(eject, [], [], now) == []
    {
    }

    /** The loop of modula_update. */
    method FillModula(now: int, ghost was: seq<int>) returns (n: nat)
      requires Counted(was, now) && TotalWeight(eject, was, Weights(), now) <= continuum.Length
      modifies continuum
      ensures n <= continuum.Length && continuum[..n] == BuildModula(eject, was, Weights(), now)
    {
      hide BuildModula, Repeat, WeightsOf;
      ghost var weights := WeightsOf(servers);
      Readings(servers);
      n := 0;
      var i := 0;
      BuildNone(now, 1);
      assert was[..0] == [] && weights[..0] == [] && continuum[..0] == [];
      while i < |servers|
        invariant 0 <= i <= |servers| && n <= continuum.Length
        invariant continuum[..n] == BuildModula(eject, was[..i], weights[..i], now)
      {
        ModulaStep(eject, was, weights, now, i);
        var server := servers[i];
        if !(eject && server.nextRetry > now) {
          n := PutWeight(i, server.weight, n);
        }
        i := i + 1;
      }
      assert was[..i] == was && weights[..i] == weights;
    }

    method PutWeight(s: nat, weight: nat, from: nat) returns (to: nat)
      requires from + weight <= continuum.Length
      modifies continuum
      ensures to == from + weight && continuum[..to] == old(continuum[..from]) + Repeat(s, weight)
    {
      to := from;
      var w := 0;
      ghost var before := continuum[..from];
      assert before + [] == before;
      while w < weight
        invariant 0 <= w <= weight && to == from + w
        invariant continuum[..to] == before + Repeat(s, w)
      {
        continuum[to] := Point(s, 0);
        assert Repeat(s, w + 1) == Repeat(s, w) + [Point(s, 0)];
        to, w := to + 1, w + 1;
      }
    }

    /** qsort of the points in use, with ketama_item_cmp. */
    method SortPoints(n: nat)
      requires n <= continuum.Length
      modifies continuum
      ensures Sorted(continuum[..n]) && multiset(continuum[..n]) == multiset(old(continuum[..n]))
    {
      var sorted := Sort(continuum[..n]);
      SortSorts(continuum[..n]);
      forall i | 0 <= i < n {
        continuum[i] := sorted[i];
      }
      assert continuum[..n] == sorted;
    }

    /** The array gets room for at least so many servers (or units of weight). */
    method Reserve(needed: nat)
      requires Shaped()
      modifies `continuum, `nserverContinuum
      ensures Shaped() && needed <= nserverContinuum
      ensures continuum == old(continuum) || fresh(continuum)
    {
      if needed > nserverContinuum {
        var slots := needed + ADDITION;
        var n := slots * (if ketama then POINTS_PER_SERVER else 1);
        continuum := new Point[n](_ => Point(0, 0));
        nserverContinuum := slots;
      }
    }

    /** The points of the live servers. */
    method Rebuild(now: int, total: nat, ghost was: seq<int>)
      requires Shaped() && |was| == |servers| && Counted(was, now) && nlive == CountLive(eject, was, now) > 0
      requires total == TotalWeight(eject, was, Weights(), now) && seen == was && at == now
      modifies `continuum, `nserverContinuum, `ncontinuum, continuum
      ensures Shaped() && Built() && (continuum == old(continuum) || fresh(continuum))
    {
      hide CountLive, TotalWeight, Build, BuildModula, WeightsOf, Counted, Sorted;
      Readings(servers);
      BuildBounds(eject, was, Weights(), now, point);
      if ketama {
        Reserve(nlive);
        ncontinuum := FillKetama(now, total, was);
        SortPoints(ncontinuum);
      } else {
        Reserve(total);
        ncontinuum := FillModula(now, was);
      }
    }

    /** server_pool_run: ketama_update or modula_update. */
    method Run(now: int)
      requires Shaped() && now >= 0
      modifies this, servers`nextRetry, continuum
      ensures Valid() && at == now && seen == old(RetriesOf(servers)) && Counted(seen, now)
      ensures continuum == old(continuum) || fresh(continuum)
    {
      hide CountLive, TotalWeight, WeightsOf, RetriesOf, Earliest, Built, Sorted;
      Readings(servers);
      var total;
      seen, at := RetriesOf(servers), now;
      nlive, total, nextRebuild := Census(servers, eject, now);
      if nlive > 0 {
        Rebuild(now, total, seen);
      }
    }

    /** The first rebuild. */
    constructor (servers: seq<Server>, eject: bool, failureLimit: nat, retryTimeout: int, ketama: bool,
                 point: PointHash, now: int)
      requires servers != [] && NoDup(servers) && (forall s :: s in servers ==> s.weight > 0 && s.nextRetry == 0) &&
        now >= 0
      modifies servers`nextRetry
      ensures Valid() && nlive == |servers| && this.servers == servers && this.eject == eject && at == now
      ensures this.failureLimit == failureLimit && this.retryTimeout == retryTimeout
      ensures this.ketama == ketama && this.point == point && fresh(continuum)
      ensures forall s :: s in servers ==> s.nextRetry == 0
    {
      this.servers, this.eject, this.failureLimit, this.retryTimeout := servers, eject, failureLimit, retryTimeout;
      this.ketama, this.point := ketama, point;
      nlive, nextRebuild, ncontinuum, nserverContinuum, at, seen := 0, 0, 0, 0, 0, [];
      continuum := new Point[0];
      new;
      Start(now);
    }

    method Start(now: int)
      requires Shaped() && now >= 0 && forall s :: s in servers ==> s.nextRetry == 0
      modifies this, servers`nextRetry, continuum
      ensures Valid() && nlive == |servers| && at == now && (continuum == old(continuum) || fresh(continuum))
      ensures forall s :: s in servers ==> s.nextRetry == 0
    {
      hide CountLive, TotalWeight, WeightsOf, RetriesOf, Earliest, Built, Sorted;
      Readings(servers);
      Run(now);
      AllLive(seen);
    }

    lemma AllLive(was: seq<int>)
      requires at >= 0 && forall i :: 0 <= i < |was| ==> was[i] == 0
      ensures CountLive(eject, was, at) == |was|
    {
    }

    /** server_pool_update: a rebuild when the next server may come back. The clock is read
        again by the rebuild. */
    method Update(now: int, now': int) returns (ok: bool)
      requires Valid() && 0 <= now <= now'
      modifies this, servers`nextRetry, continuum
      ensures Valid() && (continuum == old(continuum) || fresh(continuum))
      ensures
        if eject && old(nextRebuild) != 0 && now > old(nextRebuild) then
          at == now' && seen == old(RetriesOf(servers)) && Counted(seen, at)
        else unchanged(this) && unchanged(continuum) && Kept(old(RetriesOf(servers)))
      ensures ok ==> nlive >= 1 && Built()
      ensures !ok ==> nlive == 0 && eject && now <= nextRebuild && nextRebuild != 0
      ensures eject ==> forall i :: 0 <= i < |servers| && old(seen[i]) < now ==> Live(eject, seen[i], at)
      ensures nextRebuild == 0 ==> nlive == |servers|
    {
      hide Built, Sorted;
      Pending();
      if !eject {
        return true;
      }
      if nextRebuild == 0 {
        return true;
      }
      if now <= nextRebuild {
        return nlive != 0;
      }
      Readings(servers);
      Run(now');
      Pending();
      return true;
    }

    /** next_rebuild is 0 exactly when no server was dead at the last rebuild. */
    lemma Pending()
      requires Known() && servers != []
      ensures nextRebuild == 0 <==> nlive == |servers|
      ensures !eject ==> nlive == |servers|
      ensures forall i :: 0 <= i < |servers| && !Live(eject, seen[i], at) ==> nextRebuild != 0 && nextRebuild <= seen[i]
      ensures nextRebuild != 0 ==> exists i :: 0 <= i < |servers| && nextRebuild == seen[i] && !Live(eject, seen[i], at)
    {
    }

    /** All servers weigh the same. */
    ghost predicate Even() {
      forall i, j :: 0 <= i < |servers| && 0 <= j < |servers| ==> servers[i].weight == servers[j].weight
    }

    /** The servers found live at the last rebuild, but for server i, are those found live
        at an earlier one. */
    ghost predicate OnlyLost(i: nat, was: seq<int>, since: int)
      reads this
    {
      eject && OnlyGone(was, since, seen, at, i)
    }

    /** server_failure: at the limit the server is ejected until now + retryTimeout. The
        clock is read again by the rebuild. On a continuum, with equal weights and no two
        points of the same value, only the hashes of the ejected server move. */
    method Failure(i: nat, server: Server, now: int, now': int)
      requires Valid() && i < |servers| && server == servers[i] && 0 <= now <= now'
      modifies this, servers`nextRetry, server`failureCount, continuum
      ensures Valid() && (continuum == old(continuum) || fresh(continuum))
      ensures
        if eject && old(server.failureCount) + 1 >= failureLimit then
          && server.failureCount == 0 && at == now' && Counted(seen, at)
          && seen == old(RetriesOf(servers))[i := now + retryTimeout]
        else
          unchanged(this) && unchanged(continuum) && Kept(old(RetriesOf(servers))) &&
          server.failureCount == old(server.failureCount) + if eject then 1 else 0
      ensures ketama && Even() && nlive > 0 && old(nlive > 0 && DistinctValues(continuum[..ncontinuum])) ==>
        OnlyLost(i, old(seen), old(at)) ==>
          forall hash: nat :: old(IndexOf(hash)) != i ==> IndexOf(hash) == old(IndexOf(hash))
    {
      hide CountLive, TotalWeight, WeightsOf, RetriesOf, Earliest, Built, Sorted, DistinctValues, OnlyLost, Even, Owner;
      hide Known, Counted, Shaped;
      ghost var c, was, since := [], seen, at;
      if nlive > 0 && ketama && eject {
        Held();
        c := continuum[..ncontinuum];
      }
      KeptNow();
      if !eject {
        return;
      }
      server.failureCount := server.failureCount + 1;
      if server.failureCount < failureLimit {
        return;
      }
      server.failureCount := 0;
      Eject(i, server, now, now');
      if ketama && Even() && nlive > 0 && old(nlive > 0) && DistinctValues(c) && OnlyLost(i, was, since) {
        forall hash: nat | Owner(c, hash) != i ensures IndexOf(hash) == Owner(c, hash) {
          OnlyItsOwn(i, hash, was, since, c);
        }
      }
    }

    lemma KeptNow()
      ensures Kept(RetriesOf(servers))
    {
    }

    /** The server is away, and the points are placed without it. */
    method Eject(i: nat, server: Server, now: int, now': int)
      requires Valid() && i < |servers| && server == servers[i] && 0 <= now <= now'
      modifies this, servers`nextRetry, continuum
      ensures Valid() && (continuum == old(continuum) || fresh(continuum))
      ensures at == now' && Counted(seen, at) && seen == old(RetriesOf(servers))[i := now + retryTimeout]
    {
      hide CountLive, TotalWeight, WeightsOf, RetriesOf, Earliest, Built, Sorted;
      Readings(servers);
      Others(servers, i);
      server.nextRetry := now + retryTimeout;
      Readings(servers);
      Run(now');
    }

    lemma Held()
      requires Valid() && nlive > 0 && ketama && eject
      ensures ncontinuum <= continuum.Length && Continuous(continuum[..ncontinuum], seen, Weights(), at, point)
    {
      hide CountLive, TotalWeight, WeightsOf, Sorted, Build;
    }

    /** The continuum of an earlier census still says where a hash is, if only server i is
        no longer live. */
    lemma OnlyItsOwn(i: nat, hash: nat, was: seq<int>, since: int, c: seq<Point>)
      requires Valid() && ketama && Even() && nlive > 0 && OnlyLost(i, was, since)
      requires Continuous(c, was, Weights(), since, point) && DistinctValues(c)
      requires Owner(c, hash) != i
      ensures IndexOf(hash) == Owner(c, hash)
    {
      hide CountLive, TotalWeight, WeightsOf, Sorted, DistinctValues, Owner, Build;
      Readings(servers);
      EjectionMovesOnlyItsOwn(
        was, since, seen, at, Weights(), servers[0].weight, i, point, c, continuum[..ncontinuum], hash);
    }

    /** server_ok: a response after failures lifts the retry time. */
    method Ok(server: Server)
      requires Valid() && server in servers
      modifies server`nextRetry, server`failureCount
      ensures Valid() && server.failureCount == 0
      ensures server.nextRetry == if old(server.failureCount) != 0 then 0 else old(server.nextRetry)
    {
      hide CountLive, TotalWeight, WeightsOf, RetriesOf, Earliest, Built, Sorted;
      if server.failureCount != 0 {
        server.failureCount := 0;
        server.nextRetry := 0;
      }
    }

    /** The server of a hash: by the points on the continuum, or by the residue modulo the
        weight of all live servers. */
    ghost function IndexOf(hash: nat): nat
      requires Valid() && nlive > 0
      reads this, servers`nextRetry, continuum
    {
      if ketama then Owner(continuum[..ncontinuum], hash)
      else BuildModula(eject, seen, Weights(), at)[hash % TotalWeight(eject, seen, Weights(), at)].index
    }

    /** server_pool_idx behind the hashing, for a pool that an update has found alive. On a
        continuum it is the server of the first point in use that is not below the hash, or
        of point 0; with modula that of the residue. */
    method Dispatch(hash: nat) returns (index: nat)
      requires Valid() && nlive > 0
      ensures index < |servers| && Live(eject, seen[index], at) && ncontinuum <= continuum.Length
      ensures index == IndexOf(hash)
      ensures ketama ==>
        && ((forall i :: 0 <= i < ncontinuum ==> continuum[i].value < hash) ==> index == continuum[0].index)
        && forall k :: 0 <= k < ncontinuum && continuum[k].value >= hash &&
                       (forall i :: 0 <= i < k ==> continuum[i].value < hash) ==>
             index == continuum[k].index
      ensures !ketama ==>
        var before := TotalWeight(eject, seen[..index], Weights()[..index], at);
        before <= hash % TotalWeight(eject, seen, Weights(), at) < before + servers[index].weight
    {
      hide CountLive, TotalWeight, WeightsOf, RetriesOf, Earliest, Sorted, Build, BuildModula;
      ghost var total := TotalWeight(eject, seen, Weights(), at);
      Readings(servers);
      BuildLive(eject, seen, Weights(), at, total, nlive, point);
      ghost var c := continuum[..ncontinuum];
      assert forall p :: p in c ==> p in multiset(c);
      assert LiveIndices(c, eject, seen, at);
      if ketama {
        index := Continuum.Dispatch(continuum, ncontinuum, hash);
        OwnerIn(c, hash);
      } else {
        index := continuum[hash % ncontinuum].index;
        assert c[hash % ncontinuum].index == index;
        ModulaAt(eject, seen, Weights(), at, hash % total);
      }
    }

    lemma OwnerIn(c: seq<Point>, hash: nat)
      requires c != []
      ensures exists p :: p in c && p.index == Owner(c, hash)
    {
      var k := First(c, hash);
      assert if k == |c| then c[0] in c else c[k] in c;
    }
  }
}
