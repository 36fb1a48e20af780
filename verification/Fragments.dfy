/** Requests that were cut into fragments for several servers: req_done and req_error of
    src/gf_request.c, which ask about a whole group and keep the answers. */
module Fragments {
  import opened ByteQueue
  import opened Queues

  class Req {
    const number: nat       // order of arrival
    const id: nat           // frag_id; 0 for a request that is not part of a group
    const owner: Req?       // frag_owner: the request that was cut up, for every member of its group
    var nfrag: nat          // at the owner: the number of fragments
    var nfragDone: nat      // at the owner: how many of them are finished
    var done: bool
    var error: bool
    var fdone: bool         // cached: the group is done
    var ferror: bool        // cached: the group is in error
    var coalesced: nat      // calls of post_coalesce for this owner
    var reply: seq<Byte>    // the response
    var unsent: seq<Byte>   // what is left of it to send

    constructor (number: nat, id: nat, owner: Req?, nfrag: nat, reply: seq<Byte>)
      ensures this.number == number && this.id == id && this.nfrag == nfrag
      ensures this.owner == if owner == null && id != 0 then this else owner
      ensures nfragDone == 0 && !done && !error && !fdone && !ferror && coalesced == 0
      ensures this.reply == reply && unsent == reply
    {
      this.number, this.id, this.nfrag := number, id, nfrag;
      if owner == null && id != 0 {
        this.owner := this;
      } else {
        this.owner := owner;
      }
      nfragDone, done, error, fdone, ferror, coalesced := 0, false, false, false, false, 0;
      this.reply, unsent := reply, reply;
    }
  }

  // ---------- a full scan of a group ----------

  ghost predicate AllDone(ms: seq<Req>)
    reads ms`done
  {
    forall i :: 0 <= i < |ms| ==> ms[i].done
  }

  ghost predicate AnyError(ms: seq<Req>)
    reads ms`error
  {
    exists i :: 0 <= i < |ms| && ms[i].error
  }

  ghost function CountDone(ms: seq<Req>): (n: nat)
    reads ms`done
    ensures n <= |ms|
    ensures n == |ms| <==> AllDone(ms)
  {
    if ms == [] then 0
    else
      var n := CountDone(ms[1..]);
      assert AllDone(ms) <==> ms[0].done && AllDone(ms[1..]) by {
        assert AllDone(ms) ==> forall i :: 0 <= i < |ms| - 1 ==> ms[1..][i] == ms[i + 1];
      }
      n + if ms[0].done then 1 else 0
  }

  // ---------- the invariant of a group ----------

  /** What never changes: the owner first and then its fragments. */
  ghost predicate Members(ms: seq<Req>, id: nat) {
    && |ms| >= 2 && id != 0 && NoDup(ms)
    && (forall i :: 0 <= i < |ms| ==> ms[i].id == id)
    && (forall i :: 0 <= i < |ms| ==> ms[i].owner == ms[0])
  }

  /** nfragDone counts the finished fragments. */
  ghost predicate Counted(ms: seq<Req>)
    requires |ms| >= 2
    reads ms`nfrag, ms`nfragDone, ms`done, ms`error
  {
    && ms[0].nfrag == |ms| - 1 && (forall i :: 1 <= i < |ms| ==> ms[i].nfrag == 0)
    && ms[0].nfragDone == CountDone(ms[1..])
    && (forall i :: 1 <= i < |ms| ==> ms[i].nfragDone == 0)
    && ms[0].done && (forall i :: 0 <= i < |ms| ==> (ms[i].error ==> ms[i].done))
  }

  /** The cached answers are those of a full scan, and post_coalesce was called once if
      the group was found to be done. */
  ghost predicate Cached(ms: seq<Req>)
    requires |ms| >= 2
    reads ms`done, ms`error, ms`fdone, ms`ferror, ms`coalesced
  {
    && (forall i :: 0 <= i < |ms| ==> ms[i].fdone == ms[0].fdone)
    && (ms[0].fdone ==> AllDone(ms))
    && ms[0].coalesced == (if ms[0].fdone then 1 else 0)
    && (forall i :: 0 <= i < |ms| ==> (ms[i].ferror ==> ms[0].fdone && AnyError(ms)))
  }

  lemma CountFull(ms: seq<Req>)
    requires |ms| >= 2 && Counted(ms)
    ensures ms[0].nfragDone <= ms[0].nfrag
    ensures ms[0].nfragDone == ms[0].nfrag <==> AllDone(ms)
    ensures forall m :: m in ms && m.nfragDone < m.nfrag ==> !AllDone(ms)
  {
    assert AllDone(ms) ==> AllDone(ms[1..]);
    assert AllDone(ms[1..]) ==> forall i :: 1 <= i < |ms| ==> ms[i] == ms[1..][i - 1];
  }

  /** The group stands in the queue from place a on, and nowhere else. */
  ghost predicate StandsAt(q: seq<Req>, ms: seq<Req>, id: nat, a: nat) {
    && a + |ms| <= |q| && q[a..a + |ms|] == ms
    && forall i :: 0 <= i < |q| && q[i].id == id ==> a <= i < a + |ms|
  }

  ghost predicate Whole(q: seq<Req>, ms: seq<Req>, id: nat) {
    exists a: nat :: StandsAt(q, ms, id, a)
  }

  ghost predicate Partly(q: seq<Req>, ms: seq<Req>, id: nat, j: nat) {
    1 <= j < |ms| && j <= |q| && StandsAt(q, ms[..j], id, |q| - j)
  }

  /** The first j members have entered, at the end of the queue, and the rest will. */
  ghost predicate Arriving(q: seq<Req>, ms: seq<Req>, id: nat, j: nat)
    reads ms`done, ms`fdone
  {
    Partly(q, ms, id, j) && !ms[0].fdone && forall i :: j <= i < |ms| ==> !ms[i].done
  }

  ghost predicate Entering(q: seq<Req>, ms: seq<Req>, id: nat)
    reads ms`done, ms`fdone
  {
    exists j: nat :: Arriving(q, ms, id, j)
  }

  lemma EnteringOpen(q: seq<Req>, ms: seq<Req>, id: nat)
    ensures Entering(q, ms, id) ==> !AllDone(ms)
  {
    assert forall j: nat :: Arriving(q, ms, id, j) ==> j < |ms| && !ms[j].done;
  }

  /** Members have left: the group was done, and an error is known to all that remain. */
  ghost predicate Leaving(q: seq<Req>, ms: seq<Req>)
    requires |ms| >= 2
    reads ms`fdone, ms`error, ms`ferror
  {
    && ms[0].fdone
    && (forall r :: r in q && r in ms ==> !AnyError(ms) || r.error || r.ferror)
  }

  /** The stretch of the queue around place p with one frag_id. */
  ghost predicate Stretch(q: seq<Req>, lo: nat, hi: nat, id: nat) {
    && lo <= hi <= |q|
    && (forall i :: lo <= i < hi ==> q[i].id == id)
    && (lo > 0 ==> q[lo - 1].id != id) && (hi < |q| ==> q[hi].id != id)
  }

  /** For a group that is all there, the stretch is the group. */
  lemma StretchIsGroup(q: seq<Req>, ms: seq<Req>, id: nat, a: nat, lo: nat, hi: nat, p: nat)
    requires Members(ms, id) && StandsAt(q, ms, id, a) && lo <= p < hi && Stretch(q, lo, hi, id)
    ensures lo == a && hi == a + |ms| && q[lo..hi] == ms
  {
    assert forall i :: a <= i < a + |ms| ==> q[i] == ms[i - a] && q[i].id == id;
    assert q[p].id == id && q[lo].id == id && q[hi - 1].id == id;
  }

  /** Are the neighbours of place p with its frag_id done, backwards and then forwards? */
  method ScanDone(q: seq<Req>, p: nat) returns (all: bool, ghost lo: nat, ghost hi: nat)
    requires p < |q|
    ensures all ==> lo <= p < hi && Stretch(q, lo, hi, q[p].id)
    ensures all ==> forall i :: lo <= i < hi && i != p ==> q[i].done
    ensures !all ==> exists i :: 0 <= i < |q| && q[i].id == q[p].id && !q[i].done
  {
    var i := p;
    while i > 0 && q[i - 1].id == q[p].id
      invariant 0 <= i <= p && forall k :: i <= k < p ==> q[k].id == q[p].id && q[k].done
    {
      if !q[i - 1].done { return false, 0, 0; }
      i := i - 1;
    }
    lo := i;
    i := p + 1;
    while i < |q| && q[i].id == q[p].id
      invariant p < i <= |q| && forall k :: p < k < i ==> q[k].id == q[p].id && q[k].done
    {
      if !q[i].done { return false, 0, 0; }
      i := i + 1;
    }
    return true, lo, i;
  }

  /** Sets fdone on the neighbours of place p with its frag_id, and counts them. */
  method MarkDone(q: seq<Req>, p: nat, ghost lo: nat, ghost hi: nat) returns (n: nat)
    requires p < |q| && lo <= p < hi && Stretch(q, lo, hi, q[p].id)
    modifies q[lo..hi]`fdone
    ensures n == hi - lo - 1
    ensures forall k :: lo <= k < hi && k != p ==> q[k].fdone
    ensures old(q[p].fdone) ==> q[p].fdone
  {
    n := 0;
    var i := p;
    while i > 0 && q[i - 1].id == q[p].id
      invariant lo <= i <= p && n == p - i
      invariant forall k :: i <= k < p ==> q[k].fdone
      invariant old(q[p].fdone) ==> q[p].fdone
    {
      assert q[i - 1] == q[lo..hi][i - 1 - lo];
      q[i - 1].fdone := true;
      i, n := i - 1, n + 1;
    }
    i := p + 1;
    while i < |q| && q[i].id == q[p].id
      invariant p < i <= hi && n == p - lo + (i - p - 1)
      invariant forall k :: lo <= k < p ==> q[k].fdone
      invariant forall k :: p < k < i ==> q[k].fdone
      invariant old(q[p].fdone) ==> q[p].fdone
    {
      assert q[i] == q[lo..hi][i - lo];
      q[i].fdone := true;
      i, n := i + 1, n + 1;
    }
  }

  /** A scan that found the whole group done is kept, and the group is coalesced. */
  method Conclude(q: seq<Req>, p: nat, msg: Req, owner: Req, ghost ms: seq<Req>, ghost lo: nat, ghost hi: nat)
    requires p < |q| && q[p] == msg && msg.id != 0 && Members(ms, msg.id) && Counted(ms) && Cached(ms) && AllDone(ms)
    requires !msg.fdone && lo <= p < hi && Stretch(q, lo, hi, msg.id) && q[lo..hi] == ms && owner == msg.owner == ms[0]
    modifies ms`fdone, owner`coalesced
    ensures Cached(ms) && forall m :: m in ms ==> m.fdone
  {
    hide Counted, CountDone, AllDone, AnyError;
    assert ms[p - lo] == msg;
    assert !ms[0].fdone;
    msg.fdone := true;
    var nfragment := MarkDone(q, p, lo, hi);
    forall i | 0 <= i < |ms| ensures ms[i].fdone { assert ms[i] == q[lo + i]; }
    assert nfragment == owner.nfrag by { Nfrag(ms); }
    owner.coalesced := owner.coalesced + 1;
  }

  lemma Nfrag(ms: seq<Req>)
    requires |ms| >= 2 && Counted(ms)
    ensures ms[0].nfrag == |ms| - 1
  {
  }

  /** Where the group of a request is when it is asked about. */
  ghost predicate Placed(q: seq<Req>, ms: seq<Req>, msg: Req)
    requires |ms| >= 2
    reads ms`done, ms`fdone, ms`error, ms`ferror
  {
    || Whole(q, ms, msg.id)
    || Leaving(q, ms)
    || (msg == ms[0] && Entering(q, ms, msg.id))
  }

  /** req_done: the answer is that of a full scan of the group ms, and is kept. */
  method ReqDone(q: seq<Req>, p: nat, msg: Req, ghost ms: seq<Req>) returns (r: bool)
    requires p < |q| && q[p] == msg
    requires msg.id != 0 ==> Members(ms, msg.id) && Counted(ms) && Cached(ms) && msg in ms && Placed(q, ms, msg)
    requires msg.id == 0 ==> ms == []
    modifies ms`fdone, (if msg.id == 0 || msg.owner == null then {} else {msg.owner})`coalesced
    ensures msg.id == 0 ==> r == msg.done
    ensures msg.id != 0 ==> Cached(ms) && r == AllDone(ms) && (r ==> msg.fdone)
    ensures msg.id != 0 && r ==> Whole(q, ms, msg.id) || Leaving(q, ms)
    ensures forall m :: m in ms && old(m.fdone) ==> m.fdone
    ensures !r ==> forall m :: m in ms ==> m.fdone == old(m.fdone)
  {
    hide Counted, CountDone, Stretch, StandsAt;
    if !msg.done {
      return false;
    }
    if msg.id == 0 {
      return true;
    }
    if msg.fdone {
      return true;
    }
    CountFull(ms);
    if msg.nfragDone < msg.nfrag {
      return false;
    }
    AllHere(q, ms, msg);
    ghost var a: nat :| StandsAt(q, ms, msg.id, a);
    ghost var lo, hi;
    r, lo, hi := ScanDone(q, p);
    if r {
      StretchIsGroup(q, ms, msg.id, a, lo, hi, p);
      assert forall i :: 0 <= i < |ms| ==> ms[i] == q[lo + i];
      Conclude(q, p, msg, msg.owner, ms, lo, hi);
    } else {
      ghost var i :| 0 <= i < |q| && q[i].id == msg.id && !q[i].done;
      StandsMember(q, ms, msg.id, a, i);
    }
  }

  lemma StandsMember(q: seq<Req>, ms: seq<Req>, id: nat, a: nat, i: nat)
    requires StandsAt(q, ms, id, a) && i < |q| && q[i].id == id
    ensures a <= i < a + |ms| && q[i] == ms[i - a]
  {
    assert q[i] == q[a..a + |ms|][i - a];
  }

  /** A request that reaches the scan has its whole group in the queue. */
  lemma AllHere(q: seq<Req>, ms: seq<Req>, msg: Req)
    requires Members(ms, msg.id) && Counted(ms) && Cached(ms) && msg in ms && Placed(q, ms, msg)
    requires !msg.fdone && msg.nfragDone >= msg.nfrag
    ensures Whole(q, ms, msg.id)
  {
    CountFull(ms);
    EnteringOpen(q, ms, msg.id);
  }

  /** The stretch around place p, with no error beside it. */
  ghost predicate Clear(q: seq<Req>, p: nat, lo: nat, hi: nat)
    requires p < |q|
    reads q`error
  {
    Stretch(q, lo, hi, q[p].id) && forall i :: lo <= i < hi && i != p ==> !q[i].error
  }

  /** Is a neighbour of place p with its frag_id in error, backwards and then forwards? */
  method ScanError(q: seq<Req>, p: nat) returns (any: bool)
    requires p < |q|
    ensures any ==> exists i :: 0 <= i < |q| && q[i].id == q[p].id && q[i].error
    ensures !any ==> exists lo: nat, hi: nat :: lo <= p < hi && Clear(q, p, lo, hi)
  {
    var i := p;
    while i > 0 && q[i - 1].id == q[p].id
      invariant 0 <= i <= p && forall k :: i <= k < p ==> q[k].id == q[p].id && !q[k].error
    {
      if q[i - 1].error { return true; }
      i := i - 1;
    }
    ghost var lo := i;
    i := p + 1;
    while i < |q| && q[i].id == q[p].id
      invariant p < i <= |q| && forall k :: p < k < i ==> q[k].id == q[p].id && !q[k].error
    {
      if q[i].error { return true; }
      i := i + 1;
    }
    assert Clear(q, p, lo, i);
    return false;
  }

  /** Every request of the stretch around place p, but for the one there, knows of the error. */
  ghost predicate Told(q: seq<Req>, p: nat, lo: nat, hi: nat)
    requires p < |q|
    reads q`ferror
  {
    Stretch(q, lo, hi, q[p].id) && forall k :: lo <= k < hi && k != p ==> q[k].ferror
  }

  /** Sets ferror on the neighbours of place p with its frag_id, and on no other request. */
  method MarkError(q: seq<Req>, p: nat, ghost ms: seq<Req>) returns (ghost lo: nat, ghost hi: nat)
    requires p < |q| && forall i :: 0 <= i < |q| && q[i].id == q[p].id ==> q[i] in ms
    modifies ms`ferror
    ensures lo <= p < hi && Told(q, p, lo, hi)
    ensures forall m :: m in ms && m.ferror != old(m.ferror) ==> m.ferror && m in q[lo..hi]
  {
    var i := p;
    while i > 0 && q[i - 1].id == q[p].id
      invariant 0 <= i <= p && forall k :: i <= k < p ==> q[k].id == q[p].id && q[k].ferror
      invariant forall m :: m in ms && m.ferror != old(m.ferror) ==> m.ferror && m in q[i..p]
    {
      q[i - 1].ferror := true;
      assert q[i - 1..p] == [q[i - 1]] + q[i..p];
      i := i - 1;
    }
    lo, i := i, p + 1;
    assert forall m :: m in q[lo..p] ==> m in q[lo..i];
    while i < |q| && q[i].id == q[p].id
      invariant p < i <= |q| && forall k :: lo <= k < p || p < k < i ==> q[k].id == q[p].id && q[k].ferror
      invariant forall m :: m in ms && m.ferror != old(m.ferror) ==> m.ferror && m in q[lo..i]
    {
      q[i].ferror := true;
      assert q[lo..i + 1] == q[lo..i] + [q[i]];
      i := i + 1;
    }
    hi := i;
  }

  /** req_error: the answer is that of a full scan of the group, and is kept. */
  method ReqError(q: seq<Req>, p: nat, msg: Req, ghost ms: seq<Req>) returns (r: bool)
    requires p < |q| && q[p] == msg && msg.done
    requires msg.id == 0 ==> ms == []
    requires msg.id != 0 ==> Members(ms, msg.id) && Cached(ms) && msg in ms && msg.fdone
    requires msg.id != 0 ==> Whole(q, ms, msg.id) || Leaving(q, ms)
    requires forall i :: 0 <= i < |q| && q[i].id == msg.id != 0 ==> q[i] in ms
    modifies ms`ferror, msg`ferror
    ensures msg.id == 0 ==> r == msg.error
    ensures msg.id != 0 ==> Cached(ms) && r == AnyError(ms)
    ensures r ==> msg.error || msg.ferror
    ensures msg.id != 0 && r && old(!msg.error && !msg.ferror) ==>
      exists lo: nat, hi: nat :: lo <= p < hi && Told(q, p, lo, hi)
    ensures msg.id != 0 ==> Whole(q, ms, msg.id) || Leaving(q, ms)
    ensures !r ==> forall m :: m in ms ==> m.ferror == old(m.ferror)
  {
    hide Stretch, StandsAt;
    if msg.error {
      assert msg.id != 0 ==> exists i :: 0 <= i < |ms| && ms[i] == msg;
      return true;
    }
    if msg.id == 0 {
      return false;
    }
    if msg.ferror {
      return true;
    }
    r := ScanError(q, p);
    if r {
      assert AnyError(ms);
      msg.ferror := true;
      ghost var lo, hi := MarkError(q, p, ms);
    } else {
      NoErrorSeen(q, p, msg, ms);
    }
  }

  lemma NoErrorSeen(q: seq<Req>, p: nat, msg: Req, ms: seq<Req>)
    requires p < |q| && q[p] == msg && Members(ms, msg.id) && msg in ms && !msg.error && !msg.ferror
    requires Whole(q, ms, msg.id) || Leaving(q, ms)
    requires exists lo: nat, hi: nat :: lo <= p < hi && Clear(q, p, lo, hi)
    ensures !AnyError(ms)
  {
    if Whole(q, ms, msg.id) {
      var a: nat :| StandsAt(q, ms, msg.id, a);
      var lo: nat, hi: nat :| lo <= p < hi && Clear(q, p, lo, hi);
      StretchIsGroup(q, ms, msg.id, a, lo, hi, p);
      assert forall i :: 0 <= i < |ms| ==> ms[i] == q[lo + i];
    } else {
      assert q[p] in q;
    }
  }

  // ---------- what queue operations do to the place of a group ----------

  lemma StandsPush(q: seq<Req>, ms: seq<Req>, id: nat, a: nat, r: Req)
    requires StandsAt(q, ms, id, a) && r.id != id
    ensures StandsAt(q + [r], ms, id, a)
  {
    assert (q + [r])[a..a + |ms|] == q[a..a + |ms|];
  }

  lemma StandsEnter(q: seq<Req>, ms: seq<Req>, id: nat, j: nat)
    requires j < |ms| && j <= |q| && ms[j].id == id
    requires StandsAt(q, ms[..j], id, |q| - j)
    ensures StandsAt(q + [ms[j]], ms[..j + 1], id, |q| - j)
  {
    assert (q + [ms[j]])[|q| - j..] == ms[..j] + [ms[j]] == ms[..j + 1];
  }

  lemma StandsDrop(q: seq<Req>, ms: seq<Req>, id: nat, a: nat, i: nat)
    requires StandsAt(q, ms, id, a) && i < |q| && q[i].id != id && forall k :: 0 <= k < |ms| ==> ms[k].id == id
    ensures i < a || a + |ms| <= i
    ensures StandsAt(Dropped(q, i), ms, id, if i < a then a - 1 else a)
  {
    assert forall k :: a <= k < a + |ms| ==> q[k] == ms[k - a];
    var r, a' := Dropped(q, i), if i < a then a - 1 else a;
    assert r[a'..a' + |ms|] == ms;
  }

  lemma WholePush(q: seq<Req>, ms: seq<Req>, id: nat, r: Req)
    requires r.id != id && Whole(q, ms, id)
    ensures Whole(q + [r], ms, id)
  {
    var a: nat :| StandsAt(q, ms, id, a);
    StandsPush(q, ms, id, a, r);
  }

  lemma WholeDrop(q: seq<Req>, ms: seq<Req>, id: nat, i: nat)
    requires i < |q| && q[i].id != id && Whole(q, ms, id) && forall k :: 0 <= k < |ms| ==> ms[k].id == id
    ensures Whole(Dropped(q, i), ms, id)
  {
    var a: nat :| StandsAt(q, ms, id, a);
    StandsDrop(q, ms, id, a, i);
  }

  lemma EnteringDrop(q: seq<Req>, ms: seq<Req>, id: nat, i: nat)
    requires i < |q| && q[i].id != id && Entering(q, ms, id) && forall k :: 0 <= k < |ms| ==> ms[k].id == id
    ensures Entering(Dropped(q, i), ms, id)
  {
    var j: nat :| Arriving(q, ms, id, j);
    StandsDrop(q, ms[..j], id, |q| - j, i);
    assert Arriving(Dropped(q, i), ms, id, j);
  }

  /** A member may leave a group that is done once its error, if any, is known to all
      the members that stay. */
  lemma MemberLeaves(q: seq<Req>, ms: seq<Req>, i: nat)
    requires |ms| >= 2 && i < |q| && ms[0].fdone
    requires AnyError(ms) ==> forall k :: 0 <= k < |q| && k != i && q[k] in ms ==> q[k].error || q[k].ferror
    ensures Leaving(Dropped(q, i), ms)
  {
    var d := Dropped(q, i);
    forall r | r in d && r in ms ensures !AnyError(ms) || r.error || r.ferror {
      var k :| 0 <= k < |d| && d[k] == r;
      assert r == q[if k < i then k else k + 1];
    }
  }

  lemma LeavingSubset(q: seq<Req>, q': seq<Req>, ms: seq<Req>)
    requires |ms| >= 2 && Leaving(q, ms) && forall r :: r in q' && r in ms ==> r in q
    ensures Leaving(q', ms)
  {
  }

  // ---------- one more fragment is finished ----------

  ghost function Flags(ms: seq<Req>): (f: seq<bool>)
    reads ms`done
    ensures |f| == |ms| && forall i :: 0 <= i < |ms| ==> f[i] == ms[i].done
  {
    if ms == [] then [] else [ms[0].done] + Flags(ms[1..])
  }

  ghost function CountTrue(f: seq<bool>): nat {
    if f == [] then 0 else CountTrue(f[1..]) + if f[0] then 1 else 0
  }

  lemma {:induction false} CountFlags(ms: seq<Req>)
    ensures CountDone(ms) == CountTrue(Flags(ms))
  {
    if ms != [] {
      CountFlags(ms[1..]);
      assert Flags(ms)[1..] == Flags(ms[1..]);
    }
  }

  lemma {:induction false} CountOneMore(f: seq<bool>, i: nat)
    requires i < |f| && !f[i]
    ensures CountTrue(f[i := true]) == CountTrue(f) + 1
  {
    if i > 0 {
      CountOneMore(f[1..], i - 1);
      assert f[i := true][1..] == f[1..][i - 1 := true];
    } else {
      assert f[i := true][1..] == f[1..];
    }
  }

  /** The response or the failure of a fragment: it is done, and its owner counts it. */
  method FinishFragment(msg: Req, error: bool, ghost ms: seq<Req>, ghost k: nat)
    requires 1 <= k < |ms| && ms[k] == msg && Members(ms, msg.id) && Counted(ms) && Cached(ms) && !msg.done
    modifies msg`done, msg`error, msg.owner`nfragDone
    ensures Counted(ms) && Cached(ms) && msg.done && (msg.error <==> error || old(msg.error))
    ensures AnyError(ms) <==> error || old(AnyError(ms))
    ensures forall i :: 0 <= i < |ms| && i != k ==> ms[i].done == old(ms[i].done) && ms[i].error == old(ms[i].error)
    ensures !ms[0].fdone
  {
    hide CountDone, CountTrue, Flags;
    ghost var flags := Flags(ms[1..]);
    assert forall i :: 1 <= i < |ms| ==> ms[1..][i - 1] == ms[i];
    CountFlags(ms[1..]);
    CountOneMore(flags, k - 1);
    assert !AllDone(ms);
    msg.done := true;
    if error {
      msg.error := true;
    }
    msg.owner.nfragDone := msg.owner.nfragDone + 1;
    CountFlags(ms[1..]);
    assert Flags(ms[1..]) == flags[k - 1 := true];
  }
}