/** A client connection of src/gf_response.c: responses leave in the order of the
    requests, whatever order the servers finish them in. */
module ClientConn {
  import opened ByteQueue
  import opened Fragments
  import opened Ledger
  import opened Queues

  ghost predicate Located(q: seq<Req>, entering: nat, ms: seq<Req>, id: nat)
    requires |ms| >= 2
    reads ms`done, ms`fdone, ms`error, ms`ferror
  {
    || Whole(q, ms, id)
    || Leaving(q, ms)
    || (id == entering && Entering(q, ms, id))
  }

  ghost predicate GroupOk(q: seq<Req>, entering: nat, ms: seq<Req>, id: nat)
    reads ms`nfrag, ms`nfragDone, ms`done, ms`error, ms`fdone, ms`ferror, ms`coalesced
  {
    Members(ms, id) && Counted(ms) && Cached(ms) && Located(q, entering, ms, id)
  }

  /** Requests with the same frag_id have none with another between them. */
  ghost predicate SideBySide(q: seq<Req>) {
    forall i, j, k :: 0 <= i < j < k < |q| && q[i].id == q[k].id != 0 ==> q[j].id == q[i].id
  }

  lemma SideBySidePush(q: seq<Req>, r: Req)
    requires SideBySide(q)
    requires r.id == 0 || (forall i :: 0 <= i < |q| ==> q[i].id != r.id) || (q != [] && q[|q| - 1].id == r.id)
    ensures SideBySide(q + [r])
  {
  }

  /** Requests stand in the order of arrival, those of a group side by side. */
  ghost predicate QueuedIn(q: seq<Req>, reqs: set<Req>, groups: map<nat, seq<Req>>) {
    && SideBySide(q)
    && (forall i, j :: 0 <= i < j < |q| ==> q[i].number < q[j].number)
    && (forall i :: 0 <= i < |q| ==> q[i] in reqs)
    && (forall i :: 0 <= i < |q| && q[i].id != 0 ==> q[i].id in groups && q[i] in groups[q[i].id])
    && (forall id, i :: id in groups && 0 <= i < |groups[id]| ==> groups[id][i] in reqs && groups[id][i].id == id)
    && 0 !in groups
  }

  lemma QueuedBegin(q: seq<Req>, reqs: set<Req>, groups: map<nat, seq<Req>>, ms: seq<Req>, id: nat)
    requires QueuedIn(q, reqs, groups) && Members(ms, id) && id !in groups
    requires forall r :: r in q ==> r.number < ms[0].number
    ensures QueuedIn(q + [ms[0]], reqs + (set m | m in ms), groups[id := ms])
  {
    assert forall i :: 0 <= i < |q| ==> q[i].id != id;
    SideBySidePush(q, ms[0]);
  }

  lemma QueuedPush(q: seq<Req>, reqs: set<Req>, groups: map<nat, seq<Req>>, r: Req)
    requires QueuedIn(q, reqs, groups) && r in reqs && r.id in groups && r in groups[r.id]
    requires forall p :: p in q ==> p.number < r.number
    requires SideBySide(q + [r])
    ensures QueuedIn(q + [r], reqs, groups)
  {
  }

  lemma Shorter(q: seq<Req>, q0: seq<Req>, n: nat, more: bool)
    requires if more then n < |q| && n < |q0| && q[..n + 1] == q0[..n + 1] else n <= |q| && q == q0
    ensures q[..n] == q0[..n]
  {
    if more {
      assert q[..n] == q[..n + 1][..n] && q0[..n] == q0[..n + 1][..n];
    }
  }

  ghost function GroupOf(groups: map<nat, seq<Req>>, r: Req): seq<Req> {
    if r.id == 0 || r.id !in groups then [] else groups[r.id]
  }

  /** What a full scan of the request's group says. */
  ghost predicate GroupDone(groups: map<nat, seq<Req>>, r: Req)
    reads r`done, GroupOf(groups, r)`done
  {
    if r.id == 0 then r.done else AllDone(GroupOf(groups, r))
  }

  ghost predicate GroupError(groups: map<nat, seq<Req>>, r: Req)
    reads r`error, GroupOf(groups, r)`error
  {
    if r.id == 0 then r.error else AnyError(GroupOf(groups, r))
  }

  /** The requests and all in their groups. */
  ghost function Together(groups: map<nat, seq<Req>>, rs: seq<Req>): (ms: set<Req>)
    ensures forall r :: r in rs ==> r in ms
    ensures forall r, m :: r in rs && m in GroupOf(groups, r) ==> m in ms
  {
    (set r | r in rs) + (set r, m | r in rs && m in GroupOf(groups, r) :: m)
  }

  /** The request at place i can be answered: its group is done, and if the group is in
      error it is the only one left of it. */
  ghost predicate Answerable(groups: map<nat, seq<Req>>, q: seq<Req>, i: nat)
    requires i < |q|
    reads q`done, q`error, q`fdone, GroupOf(groups, q[i])`done, GroupOf(groups, q[i])`error
  {
    && GroupDone(groups, q[i])
    && (q[i].id != 0 ==> q[i].fdone)
    && (q[i].id != 0 && GroupError(groups, q[i]) ==> forall k :: 0 <= k < |q| && k != i ==> q[k].id != q[i].id)
  }

  datatype Texts = Texts(reply: seq<Byte>, unsent: seq<Byte>)

  /** The responses are as they were, but for the requests in bad, which have error
      responses of which nothing was sent. */
  ghost predicate Redone(was: map<Req, Texts>, now: map<Req, Texts>, bad: set<Req>, errorReply: nat -> seq<Byte>) {
    && was.Keys == now.Keys
    && forall r :: r in was ==>
         now[r] == if r in bad then Texts(errorReply(r.number), errorReply(r.number)) else was[r]
  }

  lemma RedoneNone(now: map<Req, Texts>, errorReply: nat -> seq<Byte>)
    ensures Redone(now, now, {}, errorReply)
  {
  }

  lemma RedoneMore(was: map<Req, Texts>, now: map<Req, Texts>, later: map<Req, Texts>,
                   bad: set<Req>, more: set<Req>, errorReply: nat -> seq<Byte>)
    requires Redone(was, now, bad, errorReply) && Redone(now, later, more, errorReply)
    ensures Redone(was, later, bad + more, errorReply)
  {
  }

  function Unsents(q: seq<Req>): (texts: seq<seq<Byte>>)
    reads q`unsent
    ensures |texts| == |q| && forall i :: 0 <= i < |q| ==> texts[i] == q[i].unsent
  {
    if q == [] then [] else [q[0].unsent] + Unsents(q[1..])
  }

  lemma StillAnswerableDropped(groups: map<nat, seq<Req>>, q: seq<Req>, p: nat, i: nat)
    requires p < |q| && i < |q| && i != p && Answerable(groups, q, i)
    ensures Answerable(groups, Dropped(q, p), if i < p then i else i - 1)
  {
    hide GroupDone, GroupError;
    var d, i' := Dropped(q, p), if i < p then i else i - 1;
    forall k | 0 <= k < |d| && k != i' ensures exists k' :: 0 <= k' < |q| && k' != i && q[k'] == d[k] {
      var k' := if k < p then k else k + 1;
      assert q[k'] == d[k];
    }
  }

  class Conn {
    var outq: seq<Req>
    var smsg: Req?                  // the request whose response was handed out last
    var eof: bool
    var done: bool
    ghost var reqs: set<Req>        // all requests in the queue or in a group
    ghost var groups: map<nat, seq<Req>>
    ghost var entering: nat         // the group that is being put into the queue, or 0
    ghost var wire: seq<Byte>       // everything written to the client
    ghost var ledger: seq<Entry>    // what has become of every request that entered

    constructor ()
      ensures Valid() && Ordered() && outq == [] && reqs == {} && entering == 0
      ensures wire == [] && ledger == [] && smsg == null && !eof && !done
    {
      outq, smsg, eof, done := [], null, false, false;
      reqs, groups, entering := {}, map[], 0;
      wire, ledger := [], [];
    }

    ghost predicate Queued()
      reads `outq, `reqs, `groups
    {
      QueuedIn(outq, reqs, groups)
    }

    ghost predicate Valid()
      reads `outq, `reqs, `groups, `entering, reqs`nfrag, reqs`nfragDone, reqs`done, reqs`error, reqs`fdone,
        reqs`ferror, reqs`coalesced
    {
      && Queued()
      && (forall id :: id in groups ==> GroupOk(outq, entering, groups[id], id))
      && Singles()
    }

    ghost predicate Singles()
      reads `reqs, reqs`error, reqs`done
    {
      SinglesIn(reqs)
    }

    static ghost predicate SinglesIn(rs: set<Req>)
      reads rs`error, rs`done
    {
      forall r :: r in rs && r.id == 0 ==> (r.error ==> r.done)
    }

    lemma Apart(id: nat, id': nat)
      requires Queued() && id in groups && id' in groups && id != id'
      ensures forall i :: 0 <= i < |groups[id']| ==> groups[id'][i] !in groups[id]
    {
    }

    /** While a group is entering, only its owner is asked about. */
    ghost predicate Askable(p: nat)
      requires p < |outq|
      reads `outq, `groups, `entering, GroupOf(groups, outq[p])`done, GroupOf(groups, outq[p])`fdone
    {
      var ms, id := GroupOf(groups, outq[p]), outq[p].id;
      ms == [] || id != entering || !Entering(outq, ms, id) || outq[p] == ms[0]
    }

    /** req_done for the request at place p. */
    method AskDone(p: nat) returns (r: bool)
      requires Valid() && p < |outq| && Askable(p)
      modifies reqs`fdone, reqs`coalesced
      ensures Valid() && r == GroupDone(groups, outq[p]) && forall m :: m in reqs && old(m.fdone) ==> m.fdone
      ensures r && outq[p].id != 0 ==> outq[p].fdone
    {
      var msg := outq[p];
      if msg.id == 0 {
        r := ReqDone(outq, p, msg, []);
      } else {
        r := AskGroupDone(p, msg, msg.id, groups[msg.id]);
      }
    }

    method AskGroupDone(p: nat, msg: Req, ghost id: nat, ghost ms: seq<Req>) returns (r: bool)
      requires Valid() && p < |outq| && msg == outq[p] && msg.id == id && id in groups && ms == groups[id] && msg in ms
      requires id != entering || !Entering(outq, ms, id) || msg == ms[0]
      modifies reqs`fdone, reqs`coalesced
      ensures Valid() && r == AllDone(ms) && (r ==> msg.fdone) && forall m :: m in reqs && old(m.fdone) ==> m.fdone
    {
      hide *;
      Open(id, msg);
      r := ReqDone(outq, p, msg, ms);
      if r {
        LocatedNow(id);
      }
      Assemble(id);
    }

    lemma LocatedNow(id: nat)
      requires id in groups && |groups[id]| >= 2
      ensures Whole(outq, groups[id], id) || Leaving(outq, groups[id]) ==> Located(outq, entering, groups[id], id)
    {
      hide Whole, Leaving;
    }

    lemma Assemble(id: nat)
      requires Queued() && id in groups && Members(groups[id], id)
      requires Counted(groups[id]) && Cached(groups[id]) && Located(outq, entering, groups[id], id)
      requires forall id' :: id' in groups && id' != id ==> GroupOk(outq, entering, groups[id'], id')
      requires Singles()
      ensures Valid()
    {
      hide Counted, Cached, Located;
    }

    lemma Open(id: nat, msg: Req)
      requires Valid() && id in groups && msg in groups[id]
      ensures id != 0 && msg.id == id && msg.owner == groups[id][0]
      ensures |groups[id]| >= 2 && Members(groups[id], id) && Counted(groups[id]) && Cached(groups[id]) &&
        Located(outq, entering, groups[id], id)
      ensures forall i :: 0 <= i < |groups[id]| ==> groups[id][i] in reqs
      ensures
        id != entering || !Entering(outq, groups[id], id) || msg == groups[id][0] ==> Placed(outq, groups[id], msg)
      ensures Queued() && Singles()
      ensures forall id', i :: id' in groups && id' != id && 0 <= i < |groups[id']| ==> groups[id'][i] !in groups[id]
      ensures forall id' :: id' in groups && id' != id ==> GroupOk(outq, entering, groups[id'], id')
    {
      hide Counted, Cached, Whole, Leaving, Entering;
      assert GroupOk(outq, entering, groups[id], id);
    }

    /** req_error for the request at place p, once it is done. */
    method AskError(p: nat) returns (r: bool)
      requires Valid() && p < |outq| && GroupDone(groups, outq[p]) && (outq[p].id != 0 ==> outq[p].fdone)
      modifies reqs`ferror
      ensures Valid() && r == GroupError(groups, outq[p]) && (r ==> outq[p].error || outq[p].ferror)
    {
      var msg := outq[p];
      if msg.id == 0 {
        r := ReqError(outq, p, msg, []);
      } else {
        r := AskGroupError(p, msg, msg.id, groups[msg.id]);
      }
    }

    method AskGroupError(p: nat, msg: Req, ghost id: nat, ghost ms: seq<Req>) returns (r: bool)
      requires Valid() && p < |outq| && msg == outq[p] && msg.id == id && id in groups && ms == groups[id] && msg in ms
      requires AllDone(ms) && msg.fdone
      modifies reqs`ferror
      ensures Valid() && r == AnyError(ms) && (r ==> msg.error || msg.ferror)
    {
      hide *;
      Open(id, msg);
      AllIn(id, msg);
      r := ReqError(outq, p, msg, ms);
      LocatedNow(id);
      Assemble(id);
    }

    lemma AllIn(id: nat, msg: Req)
      requires Valid() && id in groups && msg in groups[id] && AllDone(groups[id])
      ensures msg.done && id != 0 && |groups[id]| >= 2
      ensures forall i :: 0 <= i < |outq| && outq[i].id == id ==> outq[i] in groups[id]
      ensures Whole(outq, groups[id], id) || Leaving(outq, groups[id])
    {
      hide Counted, Cached, Whole, Leaving, Entering;
      assert GroupOk(outq, entering, groups[id], id);
      EnteringOpen(outq, groups[id], id);
    }

    // ---------- requests enter, finish and leave ----------

    /** The groups other than that of r stay where they are when r is put at the end. */
    lemma OthersPush(r: Req, entering': nat)
      requires Valid() && (entering == 0 || entering == r.id)
      ensures forall id :: id in groups && id != r.id ==> GroupOk(outq + [r], entering', groups[id], id)
    {
      hide Counted, Cached, AnyError, CountDone;
      forall id | id in groups && id != r.id ensures GroupOk(outq + [r], entering', groups[id], id) {
        var ms := groups[id];
        assert GroupOk(outq, entering, ms, id);
        if Whole(outq, ms, id) {
          WholePush(outq, ms, id, r);
        } else {
          assert Leaving(outq, ms);
          LeavingSubset(outq, outq + [r], ms);
        }
      }
    }

    /** The same when the request at place i is taken out. */
    lemma OthersDrop(i: nat, id: nat)
      requires Queued() && i < |outq| && outq[i].id != id && id in groups && GroupOk(outq, entering, groups[id], id)
      ensures GroupOk(Dropped(outq, i), entering, groups[id], id)
    {
      hide Counted, Cached, AnyError, CountDone, Leaving, Entering, Whole;
      var ms := groups[id];
      if Whole(outq, ms, id) {
        WholeDrop(outq, ms, id, i);
      } else if Leaving(outq, ms) {
        LeavingSubset(outq, Dropped(outq, i), ms);
      } else {
        EnteringDrop(outq, ms, id, i);
      }
    }

    lemma QueuedDrop(i: nat)
      requires Queued() && i < |outq|
      ensures SideBySide(Dropped(outq, i))
      ensures forall a, b :: 0 <= a < b < |outq| - 1 ==> Dropped(outq, i)[a].number < Dropped(outq, i)[b].number
      ensures forall r :: r in Dropped(outq, i) ==> r in outq && r != outq[i]
    {
    }

    /** enqueue_outq of a request that was not cut up. */
    method Enqueue(r: Req)
      requires Valid() && entering == 0 && r.id == 0 && r !in reqs && !r.error
      requires Ordered() && r.unsent == r.reply && forall e :: e in ledger ==> e.req.number < r.number
      modifies `outq, `reqs, `ledger
      ensures Valid() && Ordered() && outq == old(outq) + [r] && reqs == old(reqs) + {r}
      ensures ledger == old(ledger) + [New(r)] && groups == old(groups)
    {
      hide GroupOk, SideBySide, Sound, Waiters, Text;
      Newest(r);
      OthersPush(r, 0);
      SideBySidePush(outq, r);
      SoundPush(ledger, r);
      outq, reqs, ledger := outq + [r], reqs + {r}, ledger + [New(r)];
    }

    /** It came after all requests of the queue. */
    lemma Newest(r: Req)
      requires Ordered() && forall e :: e in ledger ==> e.req.number < r.number
      ensures forall q :: q in outq ==> q.number < r.number
    {
      hide Waiters;
      forall i | 0 <= i < |outq| ensures outq[i].number < r.number {
        assert ledger[Place(ledger, i)].req == outq[i];
      }
    }

    /** req_make_reply of a request that was cut up: the owner goes first, and is done. */
    method BeginGroup(ms: seq<Req>, owner: Req, id: nat)
      requires Members(ms, id) && owner == ms[0]
      requires Valid() && entering == 0 && id !in groups
      requires forall i :: 0 <= i < |ms| ==>
        ms[i] !in reqs && !ms[i].done && !ms[i].error && !ms[i].fdone && !ms[i].ferror
      requires ms[0].nfrag == |ms| - 1 && forall i :: 1 <= i < |ms| ==> ms[i].nfrag == 0
      requires forall i :: 0 <= i < |ms| ==> ms[i].nfragDone == 0 && ms[i].coalesced == 0
      requires Ordered() && owner.unsent == owner.reply && forall e :: e in ledger ==> e.req.number < owner.number
      modifies `outq, `reqs, `groups, `entering, `ledger, owner`done
      ensures Valid() && Ordered() && outq == old(outq) + [ms[0]] && entering == id && groups == old(groups)[id := ms]
      ensures Arriving(outq, ms, id, 1) && ms[0].done && ledger == old(ledger) + [New(owner)]
      ensures reqs == old(reqs) + (set m | m in ms)
    {
      hide GroupOk, Arriving, QueuedIn, Members, Sound, Waiters, Text, Singles;
      Newest(owner);
      SoundPush(ledger, owner);
      PutOwner(ms, owner, id);
      ledger := ledger + [New(owner)];
    }

    method PutOwner(ms: seq<Req>, owner: Req, id: nat)
      requires Members(ms, id) && owner == ms[0]
      requires Valid() && entering == 0 && id !in groups
      requires forall i :: 0 <= i < |ms| ==>
        ms[i] !in reqs && !ms[i].done && !ms[i].error && !ms[i].fdone && !ms[i].ferror
      requires ms[0].nfrag == |ms| - 1 && forall i :: 1 <= i < |ms| ==> ms[i].nfrag == 0
      requires forall i :: 0 <= i < |ms| ==> ms[i].nfragDone == 0 && ms[i].coalesced == 0
      requires forall r :: r in outq ==> r.number < owner.number
      modifies `outq, `reqs, `groups, `entering, owner`done
      ensures Valid() && outq == old(outq) + [owner] && entering == id && groups == old(groups)[id := ms]
      ensures reqs == old(reqs) + (set m | m in ms) && Arriving(outq, ms, id, 1) && owner.done
    {
      hide GroupOk, Counted, Cached, Arriving, QueuedIn, Members;
      OthersPush(owner, id);
      BeginApart(ms, id);
      NoneHere(id);
      QueuedBegin(outq, reqs, groups, ms, id);
      owner.done := true;
      NewGroup(outq + [owner], ms, id);
      SinglesMore(ms);
      hide Singles;
      outq, groups, entering := outq + [owner], groups[id := ms], id;
      reqs := reqs + (set m | m in ms);
    }

    /** Members of a group are not single. */
    lemma SinglesMore(ms: seq<Req>)
      requires Singles() && forall i :: 0 <= i < |ms| ==> ms[i].id != 0
      ensures SinglesIn(reqs + (set m | m in ms))
    {
    }

    lemma BeginApart(ms: seq<Req>, id: nat)
      requires Valid() && Members(ms, id)
      ensures id != 0 && forall i :: 0 <= i < |ms| ==> ms[i].id == id
      ensures forall id', i :: id' in groups && 0 <= i < |groups[id']| ==> groups[id'][i] in reqs
    {
    }

    lemma NoneHere(id: nat)
      requires Queued() && id !in groups && id != 0
      ensures forall i :: 0 <= i < |outq| ==> outq[i].id != id
    {
    }

    lemma NewGroup(q: seq<Req>, ms: seq<Req>, id: nat)
      requires Members(ms, id) && q != [] && q[|q| - 1] == ms[0] && forall i :: 0 <= i < |q| - 1 ==> q[i].id != id
      requires ms[0].done && forall i :: 1 <= i < |ms| ==> !ms[i].done
      requires forall i :: 0 <= i < |ms| ==> !ms[i].error && !ms[i].fdone && !ms[i].ferror
      requires ms[0].nfrag == |ms| - 1 && forall i :: 1 <= i < |ms| ==> ms[i].nfrag == 0
      requires forall i :: 0 <= i < |ms| ==> ms[i].nfragDone == 0 && ms[i].coalesced == 0
      ensures GroupOk(q, id, ms, id) && Arriving(q, ms, id, 1)
    {
      NoneCounted(ms[1..]);
      assert ms[..1] == [ms[0]] == q[|q| - 1..];
      assert Arriving(q, ms, id, 1);
    }

    static lemma {:induction false} NoneCounted(ms: seq<Req>)
      requires forall i :: 0 <= i < |ms| ==> !ms[i].done
      ensures CountDone(ms) == 0
    {
      if ms != [] {
        NoneCounted(ms[1..]);
      }
    }

    /** enqueue_outq of the next fragment. */
    method EnterFragment(msg: Req, ghost ms: seq<Req>, ghost j: nat)
      requires Valid() && entering in groups && ms == groups[entering] && Arriving(outq, ms, entering, j) &&
        msg == ms[j]
      requires Ordered() && msg.unsent == msg.reply && forall e :: e in ledger ==> e.req.number < msg.number
      modifies `outq, `entering, `ledger
      ensures Valid() && Ordered() && outq == old(outq) + [msg] && groups == old(groups)
      ensures if j + 1 < |ms| then entering == old(entering) && Arriving(outq, ms, entering, j + 1) else entering == 0
      ensures j + 1 == |ms| ==> Whole(outq, ms, old(entering))
      ensures ledger == old(ledger) + [New(msg)]
    {
      hide GroupOk, Counted, Cached, SideBySide, Sound, Waiters, Text;
      ghost var id := entering;
      Newest(msg);
      Nonzero(id);
      OthersPush(msg, if j + 1 < |ms| then id else 0);
      SoundPush(ledger, msg);
      NextPlace(id, j);
      hide QueuedIn;
      EntersBehind(id, j);
      outq, ledger := outq + [msg], ledger + [New(msg)];
      if j + 1 == |ms| {
        entering := 0;
      }
    }

    lemma EntersBehind(id: nat, j: nat)
      requires Valid() && id in groups && Arriving(outq, groups[id], id, j)
      requires forall q :: q in outq ==> q.number < groups[id][j].number
      ensures QueuedIn(outq + [groups[id][j]], reqs, groups)
    {
      hide GroupOk, Counted, Cached;
      Nonzero(id);
      assert outq[|outq| - 1] == groups[id][j - 1];
      SideBySidePush(outq, groups[id][j]);
      QueuedPush(outq, reqs, groups, groups[id][j]);
    }

    lemma Nonzero(id: nat)
      requires Valid() && id in groups
      ensures id != 0 && Members(groups[id], id)
      ensures forall i :: 0 <= i < |groups[id]| ==> groups[id][i] in reqs && groups[id][i].id == id
    {
      assert GroupOk(outq, entering, groups[id], id);
    }

    lemma NextPlace(id: nat, j: nat)
      requires Valid() && id in groups && Arriving(outq, groups[id], id, j)
      ensures
        var ms, q := groups[id], outq + [groups[id][j]];
        if j + 1 < |ms| then Arriving(q, ms, id, j + 1) && GroupOk(q, id, ms, id)
        else Whole(q, ms, id) && GroupOk(q, 0, ms, id)
    {
      hide Counted, Cached;
      var ms := groups[id];
      assert GroupOk(outq, entering, ms, id);
      StandsEnter(outq, ms, id, j);
      if j + 1 < |ms| {
        assert Arriving(outq + [ms[j]], ms, id, j + 1);
      } else {
        assert ms[..j + 1] == ms;
      }
    }

    /** A response, or a failure with none, for a request that was not cut up. */
    method FinishSingle(msg: Req, error: bool, reply: seq<Byte>)
      requires Valid() && Ordered() && msg in outq && msg.id == 0 && !msg.done
      modifies msg`done, msg`error, msg`reply, msg`unsent
      ensures Valid() && Ordered() && msg.done && (msg.error <==> error || old(msg.error))
      ensures msg.reply == msg.unsent == reply
    {
      hide Counted, Cached, Located, Members, Sound, Waiters, Text;
      forall id | id in groups ensures forall i :: 0 <= i < |groups[id]| ==> groups[id][i] != msg {
        Nonzero(id);
      }
      Receive(msg, reply);
      msg.done := true;
      if error {
        msg.error := true;
      }
    }

    /** The response arrives; nothing of it was sent before. */
    method Receive(msg: Req, reply: seq<Byte>)
      requires Ordered() && msg in outq && !msg.done
      modifies msg`reply, msg`unsent
      ensures Ordered() && msg.reply == msg.unsent == reply
    {
      hide Sound, Waiters, Text, Split, Sent;
      Standing(msg);
      SentNone(reply);
      msg.reply, msg.unsent := reply, reply;
    }

    /** A request of the queue has one entry, and waits. */
    lemma Standing(msg: Req)
      requires Ordered() && msg in outq
      ensures forall k :: 0 <= k < |ledger| && ledger[k].req == msg ==> ledger[k].fate.Waiting?
    {
      hide Waiters;
      var i :| 0 <= i < |outq| && outq[i] == msg;
      assert forall k :: 0 <= k < |ledger| && ledger[k].req == msg ==> k == Place(ledger, i);
    }

    /** The same for a fragment. */
    method FinishMember(msg: Req, error: bool, reply: seq<Byte>, ghost id: nat, ghost k: nat)
      requires Valid() && Ordered() && id in groups && 1 <= k < |groups[id]| && msg == groups[id][k] && msg in outq &&
        !msg.done
      modifies reqs`done, reqs`error, reqs`nfragDone, msg`reply, msg`unsent
      ensures Valid() && Ordered() && msg.done && (msg.error <==> error || old(msg.error))
      ensures AnyError(groups[id]) <==> error || old(AnyError(groups[id]))
      ensures forall r :: r in reqs && r != msg ==> r.done == old(r.done) && r.error == old(r.error)
      ensures msg.reply == msg.unsent == reply
    {
      hide Members, AnyError, Valid, Sound, Waiters, Text, Split, Sent, Counted, Cached, Located, GroupOk, Queued;
      Open(id, msg);
      Receive(msg, reply);
      FinishPart(msg, error, id, k);
    }

    /** What that means for its group. */
    method FinishPart(msg: Req, error: bool, ghost id: nat, ghost k: nat)
      requires Valid() && id in groups && 1 <= k < |groups[id]| && msg == groups[id][k] && msg in outq && !msg.done
      requires msg.owner == groups[id][0]
      modifies msg`done, msg`error, msg.owner`nfragDone
      ensures Valid() && msg.done && (msg.error <==> error || old(msg.error))
      ensures AnyError(groups[id]) <==> error || old(AnyError(groups[id]))
    {
      hide Counted, Cached, CountDone, Members, Whole, Leaving, Entering, AllDone, AnyError, Queued, GroupOk, Located,
        Valid;
      ghost var ms := groups[id];
      Open(id, msg);
      ghost var j := Here(id, k);
      FinishFragment(msg, error, ms, k);
      if j > 0 {
        StillArriving(ms, id, j);
      } else {
        LocatedNow(id);
      }
      Assemble(id);
    }

    /** An unfinished member in the queue means that its group is all there or entering. */
    lemma Here(id: nat, k: nat) returns (j: nat)
      requires Valid() && id in groups && 1 <= k < |groups[id]| && groups[id][k] in outq && !groups[id][k].done
      ensures j == 0 ==> Whole(outq, groups[id], id)
      ensures j > 0 ==> id == entering && Partly(outq, groups[id], id, j) && k < j
      ensures j > 0 ==> forall i :: j <= i < |groups[id]| ==> !groups[id][i].done
      ensures forall i :: 0 <= i < |groups[id]| && i != k ==> groups[id][i] != groups[id][k]
    {
      hide Counted;
      var ms := groups[id];
      assert GroupOk(outq, entering, ms, id);
      assert !AllDone(ms);
      if Whole(outq, ms, id) {
        j := 0;
      } else {
        j :| Arriving(outq, ms, id, j);
        var p :| 0 <= p < |outq| && outq[p] == ms[k];
        StandsMember(outq, ms[..j], id, |outq| - j, p);
      }
    }

    lemma StillArriving(ms: seq<Req>, id: nat, j: nat)
      requires id == entering && Partly(outq, ms, id, j)
      requires !ms[0].fdone && forall i :: j <= i < |ms| ==> !ms[i].done
      ensures Located(outq, entering, ms, id)
    {
      assert Arriving(outq, ms, id, j);
    }

    /** rsp_forward and req_forward_error: is there something to send now? */
    method Wake() returns (r: bool)
      requires Valid()
      modifies reqs`fdone, reqs`coalesced
      ensures Valid() && r == (outq != [] && GroupDone(groups, outq[0]))
    {
      if outq == [] {
        return false;
      }
      FrontAskable();
      r := AskDone(0);
    }

    lemma FrontAskable()
      requires Valid() && outq != []
      ensures Askable(0)
    {
      hide GroupOk, Queued, Entering;
      var id := outq[0].id;
      if id != 0 {
        InGroup(0);
        Nonzero(id);
        EnteringFront(outq, groups[id], id);
      }
    }

    static lemma EnteringFront(q: seq<Req>, ms: seq<Req>, id: nat)
      requires q != [] && q[0].id == id && |ms| > 0
      ensures Entering(q, ms, id) ==> q[0] == ms[0]
    {
      hide Partly;
      if Entering(q, ms, id) {
        var j: nat :| Arriving(q, ms, id, j);
        PartlyFront(q, ms, id, j);
      }
    }

    static lemma PartlyFront(q: seq<Req>, ms: seq<Req>, id: nat, j: nat)
      requires q != [] && q[0].id == id && Partly(q, ms, id, j)
      ensures q[0] == ms[0]
    {
      StandsMember(q, ms[..j], id, |q| - j, 0);
      assert |q| == j;
    }

    // ---------- responses leave ----------

    /** That stays so when only requests behind are taken out. */
    lemma StillAnswerable(q0: seq<Req>, q: seq<Req>, p: nat, i: nat)
      requires p < |q0| && p < |q| && q[..p + 1] == q0[..p + 1] && i <= p && Answerable(groups, q0, i)
      requires forall k :: p < k < |q| ==> q[k] in q0[p + 1..]
      ensures q[i] == q0[i] && Answerable(groups, q, i)
    {
      hide GroupDone, GroupError;
      assert q[i] == q[..p + 1][i];
      forall k | 0 <= k < |q| && k != i ensures exists k' :: 0 <= k' < |q0| && k' != i && q0[k'] == q[k] {
        if k <= p {
          assert q[k] == q[..p + 1][k] == q0[..p + 1][k];
          assert q0[k] == q[k];
        } else {
          var k' :| 0 <= k' < |q0[p + 1..]| && q0[p + 1..][k'] == q[k];
          assert q0[p + 1 + k'] == q[k];
        }
      }
    }

    lemma NoZero()
      requires Queued()
      ensures 0 !in groups
    {
    }

    /** dequeue_outq of a request that was answered. */
    method Dequeue(i: nat)
      requires Valid() && i < |outq| && Answerable(groups, outq, i)
      modifies `outq
      ensures Valid() && outq == Dropped(old(outq), i)
    {
      hide GroupOk, Queued, GroupDone, GroupError, Dropped, Answerable;
      NoZero();
      if outq[i].id != 0 {
        OwnDrop(i);
      }
      DropOne(i, outq[i].id);
    }

    lemma OwnDrop(i: nat)
      requires Valid() && i < |outq| && Answerable(groups, outq, i) && outq[i].id != 0
      ensures outq[i].id in groups && GroupOk(Dropped(outq, i), entering, groups[outq[i].id], outq[i].id)
    {
      hide Counted, AllDone, AnyError;
      var id := outq[i].id;
      var ms := groups[id];
      assert GroupOk(outq, entering, ms, id);
      MemberLeaves(outq, ms, i);
    }

    /** The loop of rsp_make_error: the rest of the group behind place p is taken out. */
    method Collapse(p: nat)
      requires Valid() && p < |outq| && GroupDone(groups, outq[p]) && GroupError(groups, outq[p])
      requires outq[p].id != 0 ==> outq[p].fdone && (outq[p].error || outq[p].ferror)
      requires outq[p].id != 0 ==> forall k :: 0 <= k < p ==> outq[k].id != outq[p].id
      modifies `outq
      ensures Valid() && p < |outq| && outq[..p + 1] == old(outq)[..p + 1] && Answerable(groups, outq, p)
      ensures outq == Less(old(outq), Absorbed(old(outq), {old(outq)[p]}))
      ensures forall k :: p < k < |outq| ==> outq[k] in old(outq)[p + 1..]
    {
      hide GroupOk, Queued, AllDone, AnyError, SideBySide, Less, Absorbed;
      ghost var q0, id := outq, outq[p].id;
      Rising();
      if outq[p].id != 0 {
        InGroup(p);
        ghost var e := DropBehind(p, outq[p].id);
        assert outq[p] == outq[..p + 1][p];
        assert forall k :: 0 <= k < p ==> outq[k] == outq[..p + 1][k] == q0[k];
        NoneBehind(p, id);
        OwnCollapsed(q0, p, id);
        assert forall k :: e <= k < |q0| ==> q0[k] == outq[p + 1 + k - e];
        GroupParts(q0, p, e);
      } else {
        LessNone(outq, Absorbed(outq, {outq[p]}));
        assert forall k :: p < k < |outq| ==> outq[k] == outq[p + 1..][k - p - 1];
      }
    }

    lemma InGroup(p: nat)
      requires Valid() && p < |outq| && outq[p].id != 0
      ensures outq[p].id in groups && outq[p] in groups[outq[p].id] && GroupOf(groups, outq[p]) == groups[outq[p].id]
      ensures GroupOk(outq, entering, groups[outq[p].id], outq[p].id)
    {
    }

    /** Requests of one group are taken out behind place p. */
    method DropBehind(p: nat, id: nat) returns (ghost e: nat)
      requires Queued() && p < |outq| && outq[p].id == id
      requires forall id' :: id' in groups && id' != id ==> GroupOk(outq, entering, groups[id'], id')
      modifies `outq
      ensures Queued() && p < |outq| && outq[..p + 1] == old(outq)[..p + 1]
      ensures p + 1 < |outq| ==> outq[p + 1].id != id
      ensures p < e <= |old(outq)| && outq == old(outq)[..p + 1] + old(outq)[e..]
      ensures forall k :: p < k < e ==> old(outq)[k].id == id
      ensures forall id' :: id' in groups && id' != id ==> GroupOk(outq, entering, groups[id'], id')
      ensures forall k :: p < k < |outq| ==> outq[k] in old(outq)[p + 1..]
    {
      hide *;
      ghost var q0 := outq;
      e := p + 1;
      assert outq == q0[..p + 1] + q0[e..];
      while p + 1 < |outq| && outq[p + 1].id == id
        invariant p < e <= |q0| && outq == q0[..p + 1] + q0[e..] && Queued()
        invariant forall k :: p < k < e ==> q0[k].id == id
        invariant forall id' :: id' in groups && id' != id ==> GroupOk(outq, entering, groups[id'], id')
        decreases |outq|
      {
        DropStep(q0, p, e);
        DropOne(p + 1, id);
        e := e + 1;
      }
      forall k | p < k < |outq| ensures outq[k] in q0[p + 1..] {
        assert q0[p + 1..][k - p - 1 + e - p - 1] == outq[k];
      }
    }

    /** What is left when the rest of a group is taken out behind one of it. */
    static lemma LessGroup(q: seq<Req>, front: seq<Req>, b: Req, middle: seq<Req>, back: seq<Req>)
      requires q == front + [b] + (middle + back)
      requires b.id != 0 && (forall r :: r in front || r in back ==> r.id != b.id)
      requires forall r :: r in middle ==> r.id == b.id && r != b
      ensures Less(q, Absorbed(q, {b})) == front + [b] + back
    {
      hide Less;
      LessParts(front + [b], middle, back, Absorbed(q, {b}));
    }

    static lemma Cut(q: seq<Req>, p: nat, e: nat)
      requires p < e <= |q|
      ensures q == q[..p] + [q[p]] + (q[p + 1..e] + q[e..]) && q[..p + 1] == q[..p] + [q[p]]
    {
    }

    static lemma GroupParts(q: seq<Req>, p: nat, e: nat)
      requires p < e <= |q| && q[p].id != 0 && forall k :: p < k < e ==> q[k] != q[p]
      requires forall k :: 0 <= k < |q| ==> (q[k].id == q[p].id <==> p <= k < e)
      ensures Less(q, Absorbed(q, {q[p]})) == q[..p + 1] + q[e..]
    {
      hide *;
      Cut(q, p, e);
      LessGroup(q, q[..p], q[p], q[p + 1..e], q[e..]);
    }

    static lemma DropStep(q0: seq<Req>, p: nat, e: nat)
      requires p < e < |q0|
      ensures Dropped(q0[..p + 1] + q0[e..], p + 1) == q0[..p + 1] + q0[e + 1..]
    {
    }

    /** One request is taken out; the groups other than its own keep their places. */
    method DropOne(i: nat, ghost id: nat)
      requires Queued() && i < |outq| && outq[i].id == id
      requires forall id' :: id' in groups && id' != id ==> GroupOk(outq, entering, groups[id'], id')
      modifies `outq
      ensures Queued() && outq == Dropped(old(outq), i)
      ensures forall id' :: id' in groups && id' != id ==> GroupOk(outq, entering, groups[id'], id')
    {
      hide GroupOk, SideBySide;
      QueuedDrop(i);
      forall id' | id' in groups && id' != id ensures GroupOk(Dropped(outq, i), entering, groups[id'], id') {
        OthersDrop(i, id');
      }
      outq := Dropped(outq, i);
    }

    lemma NoneBehind(p: nat, id: nat)
      requires Queued() && p < |outq| && id != 0 && outq[p].id == id && (p + 1 < |outq| ==> outq[p + 1].id != id)
      ensures forall k :: p < k < |outq| ==> outq[k].id != id
    {
    }

    lemma OwnCollapsed(q0: seq<Req>, p: nat, id: nat)
      requires id in groups && GroupOk(q0, entering, groups[id], id) && AllDone(groups[id])
      requires p < |outq| && outq[p] in groups[id] && outq[p].fdone && (outq[p].error || outq[p].ferror)
      requires forall k :: 0 <= k < |outq| && k != p ==> outq[k].id != id
      ensures GroupOk(outq, entering, groups[id], id)
    {
      hide Counted, AllDone, AnyError;
      var ms := groups[id];
      assert forall r :: r in outq && r in ms ==> r == outq[p];
      assert Leaving(outq, ms);
    }

    // ---------- the bytes on the wire ----------

    /** The entries of the ledger say what is true of their requests. */
    ghost predicate Told(l: seq<Entry>)
      reads `reqs, reqs`reply, reqs`unsent, reqs`done
    {
      forall i :: 0 <= i < |l| ==> l[i].req in reqs && Accurate(l[i])
    }

    /** The queue and the wire are those of the ledger. */
    ghost predicate Ordered()
      reads `outq, `wire, `ledger, `reqs, reqs`reply, reqs`unsent, reqs`done
    {
      Told(ledger) && Sound(ledger) && outq == Waiters(ledger) && wire == Text(ledger)
    }

    /** The first n bytes that are left of the first response go out. */
    method Transmit(msg: Req, n: nat)
      requires Ordered() && outq != [] && msg == outq[0] && n <= |msg.unsent| && msg.done
      modifies `wire, `ledger, msg`unsent
      ensures Ordered() && msg.unsent == old(msg.unsent)[n..] && wire == old(wire) + old(msg.unsent)[..n]
      ensures Settled(old(ledger), ledger, {})
    {
      hide Text, Waiters, Sound, Split, Sent;
      ghost var w := Place(ledger, 0);
      ghost var e := ledger[w];
      Own(0);
      SplitFurther(msg.reply, msg.unsent, n);
      SoundMore(ledger, msg.unsent[..n]);
      wire := wire + msg.unsent[..n];
      ledger := ledger[w := e.(part := e.part + msg.unsent[..n])];
      msg.unsent := msg.unsent[n..];
    }

    /** The entry of the request at place i. */
    lemma Own(i: nat)
      requires Told(ledger) && Sound(ledger) && outq == Waiters(ledger) && i < |outq|
      ensures forall k :: 0 <= k < |ledger| && k != Place(ledger, i) ==> ledger[k].req != outq[i]
      ensures Accurate(ledger[Place(ledger, i)]) && outq[i] in reqs
    {
      hide Waiters, Quiet, Excused;
    }

    /** A request whose response was written completely leaves the queue. */
    method Retire(i: nat)
      requires Valid() && Ordered() && i < |outq| && Answerable(groups, outq, i) && outq[i].unsent == []
      modifies `outq, `ledger
      ensures Valid() && Ordered() && outq == Dropped(old(outq), i)
      ensures Settled(old(ledger), ledger, {old(outq)[i]})
    {
      hide Text, Waiters, Valid, Split, Answerable, Queued, Sound;
      ghost var w := Place(ledger, i);
      Own(i);
      SentAll(outq[i].reply);
      SoundLeave(ledger, i);
      Dequeue(i);
      ledger := ledger[w := ledger[w].(fate := Answered)];
    }

    /** What becomes of the ledger when the request at place p is made an error. */
    lemma AnswersFor(p: nat)
      requires Ordered() && p < |outq| && forall k :: 0 <= k < p ==> outq[p].id != 0 ==> outq[k].id != outq[p].id
      ensures var l := Remake(ledger, Place(ledger, p));
        Sound(l) && Text(l) == wire && Waiters(l) == Less(outq, Absorbed(outq, {outq[p]}))
    {
      hide Text, Waiters, Remake, Absorbed, Less;
      var w := Place(ledger, p);
      forall i | 0 <= i < w && ledger[i].fate.Waiting?
        ensures ledger[i].req.id != ledger[w].req.id || ledger[w].req.id == 0
      {
        var k := WaitsAt(ledger, i);
        if p < k {
          PlacesRise(ledger, p, k);
        }
      }
      SoundRemake(ledger, w);
    }

    /** The response to the request at place p is replaced. */
    method Rewrite(p: nat, msg: Req, bytes: seq<Byte>, ghost q0: seq<Req>)
      requires Told(ledger) && Sound(ledger) && q0 == Waiters(ledger) && p < |q0| && msg == q0[p] && msg.done
      modifies `ledger, msg`reply, msg`unsent
      ensures Told(ledger) && ledger == Remake(old(ledger), Place(old(ledger), p)) && msg.reply == msg.unsent == bytes
    {
      hide Waiters, Sound, Split, Sent;
      SentNone(bytes);
      Alone(ledger, p);
      ledger := Remake(ledger, Place(ledger, p));
      msg.reply, msg.unsent := bytes, bytes;
    }

    static lemma Alone(l: seq<Entry>, p: nat)
      requires Sound(l) && p < |Waiters(l)|
      ensures forall k :: 0 <= k < |l| && k != Place(l, p) ==> l[k].req != Waiters(l)[p]
    {
      hide Waiters, Quiet, Excused;
    }

    /** rsp_make_error: the whole group becomes one error response. When a part of it has
        been sent already it starts again from the beginning. */
    method MakeError(p: nat, msg: Req, bytes: seq<Byte>)
      requires Valid() && Ordered() && p < |outq| && msg == outq[p] && GroupDone(groups, msg) && GroupError(groups, msg)
      requires msg.done && (msg.id != 0 ==> msg.fdone && (msg.error || msg.ferror))
      requires forall k :: 0 <= k < p ==> Answerable(groups, outq, k) && (msg.id != 0 ==> outq[k].id != msg.id)
      modifies `outq, `ledger, msg`reply, msg`unsent
      ensures Valid() && Ordered() && p < |outq| && outq[..p + 1] == old(outq)[..p + 1]
      ensures forall i :: 0 <= i <= p ==> Answerable(groups, outq, i)
      ensures ledger == Remake(old(ledger), Place(old(ledger), p))
      ensures msg.reply == msg.unsent == bytes
    {
      hide Valid, Queued, GroupDone, GroupError, Told, Sound, Text, Waiters, Less, Absorbed, Remake;
      ghost var q0 := outq;
      InReqsAll();
      AnswersFor(p);
      Collapse(p);
      assert outq[p] == outq[..p + 1][p] == q0[..p + 1][p] == msg;
      forall i | 0 <= i < p ensures Answerable(groups, outq, i) {
        assert old(Answerable(groups, q0, i));
        StillAnswerable(q0, outq, p, i);
      }
      InReqsAll();
      Rewrite(p, msg, bytes, q0);
    }

    lemma Rising()
      requires Valid()
      ensures forall i, j :: 0 <= i < j < |outq| ==> outq[i].number < outq[j].number
    {
    }

    /** req_done, where the requests before p have been answered for. */
    method Ask(p: nat, ghost k: nat) returns (r: bool)
      requires Valid() && p < |outq| && entering == 0 && k <= |outq| &&
        forall i :: 0 <= i < k ==> Answerable(groups, outq, i)
      modifies reqs`fdone, reqs`coalesced
      ensures Valid() && r == GroupDone(groups, outq[p]) && (r && outq[p].id != 0 ==> outq[p].fdone)
      ensures forall i :: 0 <= i < k ==> Answerable(groups, outq, i)
    {
      hide Valid, AllDone, AnyError, Queued;
      NoZero1();
      InReqsAll();
      r := AskDone(p);
      forall i | 0 <= i < k ensures Answerable(groups, outq, i) {
        assert old(Answerable(groups, outq, i));
        assert outq[i] in reqs;
        assert GroupDone(groups, outq[i]);
        assert GroupError(groups, outq[i]) == old(GroupError(groups, outq[i]));
      }
    }

    lemma InReqsAll()
      requires Valid()
      ensures forall i :: 0 <= i < |outq| ==> outq[i] in reqs
      ensures forall r, i :: r in outq && 0 <= i < |GroupOf(groups, r)| ==> GroupOf(groups, r)[i] in reqs
    {
    }

    lemma NoZero1()
      requires Valid() && entering == 0
      ensures forall p :: 0 <= p < |outq| ==> Askable(p)
    {
      hide Entering;
    }

    /** req_error, likewise. */
    method AskErrorToo(p: nat, ghost k: nat) returns (r: bool)
      requires Valid() && p < |outq| && k <= |outq| && forall i :: 0 <= i < k ==> Answerable(groups, outq, i)
      requires GroupDone(groups, outq[p]) && (outq[p].id != 0 ==> outq[p].fdone)
      modifies reqs`ferror
      ensures Valid() && r == GroupError(groups, outq[p]) && (r ==> outq[p].error || outq[p].ferror)
      ensures GroupDone(groups, outq[p]) && forall i :: 0 <= i < k ==> Answerable(groups, outq, i)
    {
      hide Valid, AllDone, AnyError, Queued;
      InReqsAll();
      r := AskError(p);
    }

    lemma ErrorAlone(p: nat)
      requires p < |outq| && GroupError(groups, outq[p]) && forall i :: 0 <= i < p ==> Answerable(groups, outq, i)
      ensures outq[p].id != 0 ==> forall k :: 0 <= k < p ==> outq[k].id != outq[p].id
    {
      if outq[p].id != 0 {
        forall k | 0 <= k < p ensures outq[k].id != outq[p].id {
          assert Answerable(groups, outq, k);
        }
      }
    }

    ghost function Now(): (was: map<Req, Texts>)
      reads `reqs, reqs`reply, reqs`unsent
    {
      map r | r in reqs :: Texts(r.reply, r.unsent)
    }

    /** The ledger when the request at place p of the queue is handed out: its group has
        made way for an error response exactly if it is in error. */
    ghost predicate HandedOver(l: seq<Entry>, p: nat, next: Req)
      requires p < |Waiters(l)|
      reads `ledger, `groups, GroupOf(groups, next)`error, next`error
    {
      ledger == if GroupError(groups, next) then Remake(l, Place(l, p)) else l
    }

    /** The request at place p is handed out. */
    method HandOver(p: nat, next: Req, errorReply: nat -> seq<Byte>)
      requires Valid() && Ordered() && p < |outq| && next == outq[p]
      requires forall i :: 0 <= i < p ==> Answerable(groups, outq, i)
      requires GroupDone(groups, next) && (next.id != 0 ==> next.fdone)
      modifies `outq, `ledger, reqs`ferror, reqs`reply, reqs`unsent
      ensures Valid() && Ordered() && p < |outq| && next == outq[p] && outq[..p + 1] == old(outq)[..p + 1]
      ensures forall i :: 0 <= i <= p ==> Answerable(groups, outq, i)
      ensures HandedOver(old(ledger), p, next)
      ensures Redone(old(Now()), Now(), if GroupError(groups, next) then {next} else {}, errorReply)
    {
      hide Valid, Told, Sound, Text, Waiters, GroupDone, GroupError, Queued, Remake;
      ghost var q0 := outq;
      InReqsAll();
      DoneToo(p);
      var error := AskErrorToo(p, p);
      if error {
        ErrorAlone(p);
        MakeError(p, next, errorReply(next.number));
        assert outq[..p + 1][p] == q0[..p + 1][p];
      }
    }

    lemma DoneToo(p: nat)
      requires Valid() && p < |outq| && GroupDone(groups, outq[p])
      ensures outq[p].done
    {
      hide GroupOk;
    }

    /** The place of the request to be handed out after p others, if it is done. */
    method NextPlace0(ghost p: nat) returns (ready: bool, at: nat)
      requires Valid() && entering == 0 && p <= |outq| && smsg == (if p == 0 then null else outq[p - 1]) && outq != []
      requires forall i :: 0 <= i < p ==> Answerable(groups, outq, i)
      modifies reqs`fdone, reqs`coalesced
      ensures Valid() && (ready ==> at == p) && (ready ==> p < |outq| && (outq[p].id != 0 ==> outq[p].fdone))
      ensures ready <==> p < |outq| && GroupDone(groups, outq[p])
      ensures forall i :: 0 <= i < p ==> Answerable(groups, outq, i)
    {
      hide Valid, GroupDone, GroupError, Queued;
      Rising();
      assert p > 0 ==> Answerable(groups, outq, 0);
      at := 0;
      ready := Ask(0, p);
      assert p > 0 ==> Answerable(groups, outq, 0);
      if !ready {
        return;
      }
      if smsg != null {
        at := 1;
        while outq[at - 1] != smsg
          invariant 1 <= at <= p
          modifies {}
          decreases |outq| - at
        {
          at := at + 1;
        }
      }
      assert at == p;
      if at < |outq| {
        ready := Ask(at, p);
      } else {
        ready := false;
      }
    }

    /** rsp_send_next, after p requests were handed out in this pass: the next one if it
        is done, with its group made into one response if there was an error. */
    method SendNext(ghost p: nat, errorReply: nat -> seq<Byte>) returns (next: Req?)
      requires Valid() && Ordered() && entering == 0 && p <= |outq| && smsg == (if p == 0 then null else outq[p - 1])
      requires forall i :: 0 <= i < p ==> Answerable(groups, outq, i)
      modifies `outq, `smsg, `done, `ledger
      modifies reqs`fdone, reqs`coalesced, reqs`ferror, reqs`reply, reqs`unsent
      ensures Valid() && Ordered() && smsg == next
      ensures next == null ==>
        && outq == old(outq) && ledger == old(ledger) && Redone(old(Now()), Now(), {}, errorReply)
        && (p == |outq| || !GroupDone(groups, outq[p])) && forall i :: 0 <= i < p ==> Answerable(groups, outq, i)
      ensures next != null ==>
        && p < |outq| && p < |old(outq)| && next == outq[p] && outq[..p + 1] == old(outq)[..p + 1]
        && forall i :: 0 <= i <= p ==> Answerable(groups, outq, i)
      ensures next != null ==>
        && HandedOver(old(ledger), p, next)
        && Redone(old(Now()), Now(), if GroupError(groups, next) then {next} else {}, errorReply)
      ensures done <==> old(done) || (old(outq) == [] && eof)
    {
      hide Valid, Told, Sound, Text, Waiters, GroupDone, GroupError, Queued, Answerable, HandedOver, Redone, Now;
      RedoneNone(Now(), errorReply);
      next := null;
      if outq == [] {
        if eof { done := true; }
        return;
      }
      var ready, at := NextPlace0(p);
      smsg := null;
      if ready {
        next := outq[at];
        HandOver(at, next, errorReply);
        smsg := next;
      }
    }

    /** What handing out some requests has made of ledger and responses. */
    ghost predicate Progress(l: seq<Entry>, was: map<Req, Texts>, handed: seq<Req>, bad: set<Req>,
                             errorReply: nat -> seq<Byte>)
      reads `ledger, `groups, `reqs, reqs`reply, reqs`unsent, Together(groups, handed)`error
    {
      && Turned(l, ledger, bad) && Redone(was, Now(), bad, errorReply)
      && (forall r :: r in bad ==> r in handed)
      && (forall r :: r in handed ==> (r in bad <==> GroupError(groups, r)))
    }

    /** The next request to be handed out, if there is one. */
    method HandNext(ghost handed: seq<Req>, ghost bad: set<Req>, errorReply: nat -> seq<Byte>,
                    ghost l: seq<Entry>, ghost was: map<Req, Texts>)
      returns (next: Req?, ghost bad': set<Req>)
      requires Valid() && Ordered() && entering == 0 && |handed| <= |outq| && handed == outq[..|handed|]
      requires smsg == if handed == [] then null else handed[|handed| - 1]
      requires forall i :: 0 <= i < |handed| ==> Answerable(groups, outq, i)
      requires Rises(l) && Progress(l, was, handed, bad, errorReply)
      modifies `outq, `smsg, `done, `ledger
      modifies reqs`fdone, reqs`coalesced, reqs`ferror, reqs`reply, reqs`unsent
      ensures Valid() && Ordered() && smsg == next
      ensures if next == null then
                && outq == old(outq) && Progress(l, was, handed, bad', errorReply)
                && (|handed| == |outq| || !GroupDone(groups, outq[|handed|]))
                && forall i :: 0 <= i < |handed| ==> Answerable(groups, outq, i)
              else
                && |handed| < |outq| && |handed| < |old(outq)| && next == outq[|handed|]
                && outq[..|handed| + 1] == old(outq)[..|handed| + 1]
                && Progress(l, was, handed + [next], bad', errorReply)
                && forall i :: 0 <= i <= |handed| ==> Answerable(groups, outq, i)
      ensures done <==> old(done) || (old(outq) == [] && eof)
    {
      hide Valid, Ordered, Told, GroupDone, GroupError, Queued, Answerable, Turned, Redone, HandedOver, Rises, Now,
        Waiters;
      ghost var p, now, before := |handed|, Now(), ledger;
      Grouped(handed);
      if p < |outq| {
        NotYet(handed);
      }
      QueueIs();
      next := SendNext(p, errorReply);
      if next == null {
        RedoneMore(was, now, Now(), bad, {}, errorReply);
        assert bad + {} == bad;
        bad' := bad;
      } else {
        bad' := HandedMore(l, was, handed, bad, errorReply, before, now, next);
      }
    }

    lemma HandedMore(l: seq<Entry>, was: map<Req, Texts>, handed: seq<Req>, bad: set<Req>, errorReply: nat -> seq<Byte>,
                     before: seq<Entry>, now: map<Req, Texts>, next: Req)
      returns (bad': set<Req>)
      requires Rises(l) && Turned(l, before, bad) && Redone(was, now, bad, errorReply)
      requires (forall r :: r in bad ==> r in handed) &&
        forall r :: r in handed ==> (r in bad <==> GroupError(groups, r))
      requires |handed| < |Waiters(before)| && Waiters(before)[|handed|] == next && next !in handed
      requires HandedOver(before, |handed|, next)
      requires Redone(now, Now(), if GroupError(groups, next) then {next} else {}, errorReply)
      ensures Progress(l, was, handed + [next], bad', errorReply)
    {
      hide Waiters, GroupError, Turned, Redone, Remake;
      if GroupError(groups, next) {
        RedoneMore(was, now, Now(), bad, {next}, errorReply);
        TurnedMore(l, before, bad, Place(before, |handed|));
        bad' := bad + {next};
      } else {
        RedoneMore(was, now, Now(), bad, {}, errorReply);
        assert bad + {} == bad;
        bad' := bad;
      }
    }

    lemma NotYet(handed: seq<Req>)
      requires Valid() && |handed| < |outq| && handed == outq[..|handed|]
      ensures outq[|handed|] !in handed
    {
      Rising();
    }

    lemma QueueIs()
      requires Ordered()
      ensures outq == Waiters(ledger)
    {
    }

    /** What one pass of msg_send takes: the first requests of the queue that are done,
        at most limit of them; those in bad get error responses. */
    method HandOut(limit: nat, errorReply: nat -> seq<Byte>) returns (handed: seq<Req>, ghost bad: set<Req>)
      requires Valid() && Ordered() && entering == 0 && smsg == null && limit > 0
      modifies `outq, `smsg, `done, `ledger
      modifies reqs`fdone, reqs`coalesced, reqs`ferror, reqs`reply, reqs`unsent
      ensures Valid() && Ordered() && smsg == null && |handed| <= |outq| && |handed| <= limit &&
        handed == outq[..|handed|]
      ensures forall i :: 0 <= i < |handed| ==> Answerable(groups, outq, i)
      ensures |handed| == limit || |handed| == |outq| || !GroupDone(groups, outq[|handed|])
      ensures handed != [] ==> old(outq) != [] && handed[0] == old(outq)[0]
      ensures forall r :: r in bad <==> r in handed && GroupError(groups, r)
      ensures Turned(old(ledger), ledger, bad) && outq == Less(old(outq), Absorbed(old(outq), bad))
      ensures Redone(old(Now()), Now(), bad, errorReply)
      ensures done <==> old(done) || (old(outq) == [] && eof)
    {
      hide Valid, Ordered, GroupDone, GroupError, Queued, Answerable, Turned, Redone, Progress, Less, Absorbed;
      hide Waiters, Rises, Now, Together, Told, Sound, Text, Spared, Singles;
      ghost var l, was, q0 := ledger, Now(), outq;
      Start(errorReply);
      handed, bad := [], {};
      var msg;
      msg, bad := HandNext([], {}, errorReply, l, was);
      while msg != null
        invariant Valid() && Ordered() && smsg == msg && |handed| <= |outq| && handed == outq[..|handed|] &&
          |handed| < limit
        invariant forall i :: 0 <= i < |handed| ==> Answerable(groups, outq, i)
        invariant msg != null ==> |handed| < |outq| && msg == outq[|handed|] && Answerable(groups, outq, |handed|)
        invariant msg == null ==> |handed| == |outq| || !GroupDone(groups, outq[|handed|])
        invariant Progress(l, was, if msg == null then handed else handed + [msg], bad, errorReply)
        invariant msg != null || handed != [] ==> q0 != [] && outq != [] && outq[0] == q0[0]
        invariant done <==> old(done) || (q0 == [] && eof)
        decreases limit - |handed|, msg != null
      {
        handed := handed + [msg];
        assert handed == outq[..|handed|];
        if |handed| == limit {
          break;
        }
        ghost var q := outq;
        msg, bad := HandNext(handed, bad, errorReply, l, was);
        Shorter(outq, q, |handed|, msg != null);
      }
      smsg := null;
      Ending(l, was, handed, bad, errorReply);
    }

    lemma Start(errorReply: nat -> seq<Byte>)
      requires Ordered()
      ensures Rises(ledger) && Progress(ledger, Now(), [], {}, errorReply) && outq == Waiters(ledger)
    {
    }

    lemma Ending(l: seq<Entry>, was: map<Req, Texts>, handed: seq<Req>, bad: set<Req>, errorReply: nat -> seq<Byte>)
      requires Ordered() && Progress(l, was, handed, bad, errorReply)
      ensures forall r :: r in bad <==> r in handed && GroupError(groups, r)
      ensures Turned(l, ledger, bad) && outq == Less(Waiters(l), Absorbed(Waiters(l), bad))
      ensures Redone(was, Now(), bad, errorReply)
    {
      hide Turned, Redone, GroupError, Less, Absorbed, Waiters;
      WaitersTurned(l, ledger, bad);
    }

    /** All that is asked about for some requests of the queue. */
    lemma Grouped(handed: seq<Req>)
      requires Valid() && |handed| <= |outq| && handed == outq[..|handed|]
      ensures forall r :: r in handed ==> r in reqs
      ensures forall r, m :: r in handed && m in GroupOf(groups, r) ==> m in reqs
    {
      hide Valid;
      InReqsAll();
    }

    /** The m requests from place p on can be answered. */
    ghost predicate Ready(p: nat, m: nat)
      reads `outq, `groups, outq`done, outq`error, outq`fdone, Together(groups, outq)`done, Together(groups, outq)`error
    {
      p + m <= |outq| && forall j :: p <= j < p + m ==> Answerable(groups, outq, j)
    }

    /** The postprocessing of one message in msg_send_chain, with nsent bytes left over
        for it: it loses what was sent, and leaves the queue when nothing is left. */
    method DeliverOne(p: nat, msg: Req, nsent: nat, ghost m: nat) returns (left: nat, complete: bool)
      requires Valid() && Ordered() && p < |outq| && msg == outq[p] && (nsent > 0 ==> p == 0) && Ready(p, m) && m > 0
      modifies `outq, `wire, `ledger, msg`unsent
      ensures Valid() && Ordered() && (complete <==> |old(msg.unsent)| <= nsent)
      ensures outq == if complete then Dropped(old(outq), p) else old(outq)
      ensures Settled(old(ledger), ledger, if complete then {msg} else {})
      ensures Loses(old(msg.unsent), nsent, left, msg.unsent, old(wire), wire)
      ensures Ready(if complete then p else p + 1, m - 1)
    {
      hide Valid, Told, Sound, Waiters, Text, Queued, Answerable, GroupDone, GroupError;
      ghost var l := ledger;
      InReqsAll();
      FirstDone(p);
      if nsent == 0 {
        left, complete := 0, msg.unsent == [];
      } else if nsent < |msg.unsent| {
        Transmit(msg, nsent);
        left, complete := 0, false;
      } else {
        left, complete := nsent - |msg.unsent|, true;
        Transmit(msg, |msg.unsent|);
      }
      if complete {
        ghost var q' := Dropped(outq, p);
        forall j | p <= j < p + m - 1 ensures Answerable(groups, q', j) {
          StillAnswerableDropped(groups, outq, p, j + 1);
        }
        ghost var l1 := ledger;
        Retire(p);
        SettledMore(l, l1, ledger, {}, {msg});
        assert {} + {msg} == {msg};
      }
    }

    lemma FirstDone(p: nat)
      requires Valid() && p < |outq| && Answerable(groups, outq, p)
      ensures outq[p].done
    {
      hide Valid, GroupDone, GroupError;
      DoneToo(p);
    }

    /** The postprocessing loop: the first n bytes of what was handed out have gone, and
        the requests with nothing left leave. */
    method Deliver(handed: seq<Req>, n: nat, ghost texts: seq<seq<Byte>>) returns (ghost gone: seq<Req>)
      requires Valid() && Ordered() && |handed| <= |outq| && handed == outq[..|handed|]
      requires forall i :: 0 <= i < |handed| ==> Answerable(groups, outq, i)
      requires |texts| == |handed| && (forall i :: 0 <= i < |handed| ==> handed[i].unsent == texts[i]) &&
        n <= |Flat(texts)|
      modifies `outq, `wire, `ledger, handed`unsent
      ensures Valid() && Ordered() && wire == old(wire) + Flat(texts)[..n]
      ensures gone == Finished(handed, Rest(texts, n)) && Settled(old(ledger), ledger, SetOf(gone))
      ensures forall i :: 0 <= i < |handed| ==> handed[i].unsent == Rest(texts, n)[i]
    {
      hide Valid, Ordered, Told, Sound, Queued, QueuedIn, GroupOk, Counted, Cached, SideBySide;
      hide Ready, Answerable, GroupDone, GroupError, Dropped, Settled, SetOf, Waiters, Text, Aligned;
      hide Flat, Rest, Left, Taken, Finished, Loses;
      Different(handed);
      gone := [];
      ghost var rest, l, w := Rest(texts, n), ledger, wire;
      var i: nat, p: nat, nsent: nat := 0, 0, n;
      TakenStart(texts, n);
      AlignedStart(outq, handed);
      DeliverStart(handed, texts, n, gone, l);
      AllReady(handed);
      while i < |handed|
        invariant 0 <= i <= |handed| && Aligned(outq, p, handed, i)
        invariant Valid() && Ordered() && (nsent > 0 ==> p == 0)
        invariant Ready(p, |handed| - i)
        invariant forall j :: i <= j < |handed| ==> handed[j].unsent == texts[j]
        invariant forall j :: 0 <= j < i ==> handed[j].unsent == rest[j]
        invariant nsent == Left(texts, n, i) && wire == w + Taken(texts, n, i)
        invariant gone == Finished(handed[..i], rest[..i]) && Settled(l, ledger, SetOf(gone))
      {
        MovedOn(outq, p, handed, i);
        FinishedStep(handed, rest, i);
        ghost var l1 := ledger;
        var complete;
        nsent, complete := DeliverOne(p, handed[i], nsent, |handed| - i);
        Lost(texts, n, i, nsent, handed[i].unsent, w, wire);
        SettledMore(l, l1, ledger, SetOf(gone), if complete then {handed[i]} else {});
        SetPush(gone, handed[i]);
        if complete {
          gone := gone + [handed[i]];
        } else {
          p := p + 1;
        }
        i := i + 1;
      }
      TakenEnd(texts, n);
      DeliverEnd(handed, texts, n);
    }

    lemma Different(handed: seq<Req>)
      requires Valid() && |handed| <= |outq| && handed == outq[..|handed|]
      ensures forall i, j :: 0 <= i < j < |handed| ==> handed[i] != handed[j]
    {
      Rising();
    }

    lemma AllReady(handed: seq<Req>)
      requires |handed| <= |outq| && forall i :: 0 <= i < |handed| ==> Answerable(groups, outq, i)
      ensures Ready(0, |handed|)
    {
      hide Answerable;
    }

    static lemma DeliverStart(handed: seq<Req>, texts: seq<seq<Byte>>, n: nat, gone: seq<Req>, l: seq<Entry>)
      requires |texts| == |handed| && gone == []
      ensures Finished(handed[..0], Rest(texts, n)[..0]) == gone && Settled(l, l, SetOf(gone))
    {
    }

    static lemma DeliverEnd(handed: seq<Req>, texts: seq<seq<Byte>>, n: nat)
      requires |texts| == |handed|
      ensures handed[..|handed|] == handed && Rest(texts, n)[..|handed|] == Rest(texts, n)
    {
    }

    /** The first request of the queue is done and in error, with a part of another
        response written: the next pass spoils that part. */
    ghost predicate Spoils()
      reads `outq, `groups, outq`reply, outq`unsent, outq`done, outq`error
      reads if outq == [] then [] else GroupOf(groups, outq[0])
    {
      outq != [] && GroupDone(groups, outq[0]) && GroupError(groups, outq[0]) && |outq[0].unsent| < |outq[0].reply|
    }

    /** The preprocessing of a pass: what is handed out, what the pass offers to the kernel,
        and what it spoils. */
    method Offer(limit: nat, errorReply: nat -> seq<Byte>)
      returns (handed: seq<Req>, texts: seq<seq<Byte>>, ghost bad: set<Req>)
      requires Valid() && Ordered() && entering == 0 && smsg == null && limit > 0
      modifies `outq, `smsg, `done, `ledger
      modifies reqs`fdone, reqs`coalesced, reqs`ferror, reqs`reply, reqs`unsent
      ensures Valid() && Ordered() && smsg == null && |handed| <= |outq| && |handed| <= limit &&
        handed == outq[..|handed|]
      ensures forall i :: 0 <= i < |handed| ==> Answerable(groups, outq, i)
      ensures |handed| == limit || |handed| == |outq| || !GroupDone(groups, outq[|handed|])
      ensures forall r :: r in handed ==> GroupDone(groups, r)
      ensures forall r :: r in bad <==> r in handed && GroupError(groups, r)
      ensures Turned(old(ledger), ledger, bad) && outq == Less(old(outq), Absorbed(old(outq), bad))
      ensures |texts| == |handed|
      ensures forall k :: 0 <= k < |handed| ==>
        && texts[k] == handed[k].unsent && handed[k] in old(Now())
        && texts[k] == if handed[k] in bad then errorReply(handed[k].number) else old(Now())[handed[k]].unsent
      ensures forall r :: r in reqs ==> r.reply == if r in bad then errorReply(r.number) else old(r.reply)
      ensures old(Spoils()) ==> Spoilt(old(ledger), ledger, old(outq)[0], old(Sent(outq[0].reply, outq[0].unsent)))
      ensures !old(Spoils()) ==> Unspoilt(old(ledger), ledger)
      ensures done <==> old(done) || (old(outq) == [] && eof)
      ensures forall r :: r in reqs && r !in bad ==> r.unsent == old(r.unsent)
    {
      hide Valid, Ordered, Queued, GroupDone, GroupError, Spoils, Turned, Redone, Absorbed, Less, Spoilt, Unspoilt,
        Sound;
      hide Answerable, Waiters, Told, Now;
      ghost var l, q, was := ledger, outq, Now();
      Before();
      handed, bad := HandOut(limit, errorReply);
      Handed(q, handed, bad, limit);
      texts := Unsents(handed);
      TextsAre(was, handed, bad, errorReply);
      SpoiltFirst(l, ledger, bad);
    }

    /** The kernel takes a part of what is offered, and the queue is the one before without
        those that have nothing left. */
    method Write(handed: seq<Req>, texts: seq<seq<Byte>>, sendv: nat -> nat) returns (n: nat, ghost gone: seq<Req>)
      requires Valid() && Ordered() && |handed| <= |outq| && handed == outq[..|handed|] && forall k :: sendv(k) <= k
      requires forall i :: 0 <= i < |handed| ==> Answerable(groups, outq, i)
      requires |texts| == |handed| && forall i :: 0 <= i < |handed| ==> handed[i].unsent == texts[i]
      modifies `outq, `wire, `ledger, handed`unsent
      ensures Valid() && Ordered() && n == sendv(|Flat(texts)|) && wire == old(wire) + Flat(texts)[..n]
      ensures gone == Finished(handed, Rest(texts, n)) && outq == Less(old(outq), SetOf(gone))
      ensures Settled(old(ledger), ledger, SetOf(gone))
      ensures forall i :: 0 <= i < |handed| ==> handed[i].unsent == Rest(texts, n)[i]
    {
      hide Valid, Ordered, Settled, Less, Flat, Rest, Finished, SetOf, Answerable, Waiters;
      ghost var l := ledger;
      QueueIs();
      n := sendv(|Flat(texts)|);
      gone := Deliver(handed, n, texts);
      QueueIs();
      WaitersSettled(l, ledger, SetOf(gone));
    }

    /** One pass of msg_send for a client. Those in bad get error responses, and their
        groups make way; texts is what the requests handed out have left, of which the
        kernel takes the first sendv(nsend) of nsend bytes; those with nothing left are gone. */
    method SendPass(limit: nat, sendv: nat -> nat, errorReply: nat -> seq<Byte>)
      returns (handed: seq<Req>, n: nat, texts: seq<seq<Byte>>, ghost bad: set<Req>, ghost gone: seq<Req>,
               ghost between: seq<Entry>)
      requires Valid() && Ordered() && entering == 0 && smsg == null && limit > 0 && forall k :: sendv(k) <= k
      modifies `outq, `smsg, `done, `ledger, `wire
      modifies reqs`fdone, reqs`coalesced, reqs`ferror, reqs`reply, reqs`unsent
      ensures Valid() && Ordered() && smsg == null
      ensures var kept := Less(old(outq), Absorbed(old(outq), bad));
        && |handed| <= limit && handed <= kept && (forall r :: r in handed ==> GroupDone(groups, r))
        && (|handed| == limit || handed == kept || !GroupDone(groups, kept[|handed|]))
        && outq == Less(kept, SetOf(gone))
      ensures forall r :: r in bad <==> r in handed && GroupError(groups, r)
      ensures |texts| == |handed|
      ensures forall k :: 0 <= k < |handed| ==>
        && handed[k] in old(Now()) && handed[k].unsent == Rest(texts, n)[k]
        && texts[k] == if handed[k] in bad then errorReply(handed[k].number) else old(Now())[handed[k]].unsent
      ensures n == sendv(|Flat(texts)|) && wire == old(wire) + Flat(texts)[..n] &&
        gone == Finished(handed, Rest(texts, n))
      ensures forall r :: r in reqs ==> r.reply == if r in bad then errorReply(r.number) else old(r.reply)
      ensures Turned(old(ledger), between, bad) && Settled(between, ledger, SetOf(gone))
      ensures old(Spoils()) ==> Spoilt(old(ledger), ledger, old(outq)[0], old(Sent(outq[0].reply, outq[0].unsent)))
      ensures !old(Spoils()) ==> Unspoilt(old(ledger), ledger)
      ensures done <==> old(done) || (old(outq) == [] && eof)
      ensures forall r :: r in reqs && r !in handed ==> r.unsent == old(r.unsent)
    {
      hide Valid, Ordered, Queued, GroupDone, GroupError, Spoils, Turned, Settled, Absorbed, Less, Spoilt, Unspoilt,
        Sound;
      hide Flat, Rest, Finished, SetOf, Answerable, Waiters, Told, Now;
      Before();
      ghost var l, spoils, head := ledger, Spoils(), outq;
      ghost var part := if outq == [] then [] else Sent(outq[0].reply, outq[0].unsent);
      handed, texts, bad := Offer(limit, errorReply);
      InReqsAll();
      between := ledger;
      n, gone := Write(handed, texts, sendv);
      StillSo(l, between, ledger, SetOf(gone), head, spoils, part);
    }

    /** The answered requests spoil nothing. */
    static lemma StillSo(l: seq<Entry>, between: seq<Entry>, l': seq<Entry>, gone: set<Req>, q: seq<Req>,
                         spoils: bool, part: seq<Byte>)
      requires Settled(between, l', gone) && (spoils ==> q != [] && Spoilt(l, between, q[0], part))
      requires !spoils ==> Unspoilt(l, between)
      ensures (spoils ==> Spoilt(l, l', q[0], part)) && (!spoils ==> Unspoilt(l, l'))
    {
      hide Settled, Spoilt, Unspoilt;
      if spoils {
        SpoiltStill(l, between, l', gone, q[0], part);
      } else {
        UnspoiltStill(l, between, l', gone);
      }
    }

    /** What is known when a pass begins. */
    lemma Before()
      requires Valid() && Ordered()
      ensures Sound(ledger) && outq == Waiters(ledger)
      ensures forall i :: 0 <= i < |outq| ==> outq[i] in reqs
      ensures forall r, m :: r in outq && m in GroupOf(groups, r) ==> m in reqs
      ensures forall r :: r in reqs ==> r in Now() && Now()[r] == Texts(r.reply, r.unsent)
      ensures outq != [] ==>
        && |outq[0].unsent| <= |outq[0].reply|
        && ledger[Place(ledger, 0)].part == Sent(outq[0].reply, outq[0].unsent)
        && (Spoils() <==>
              GroupDone(groups, outq[0]) && GroupError(groups, outq[0]) && ledger[Place(ledger, 0)].part != [])
      ensures outq == [] ==> !Spoils()
    {
      hide Valid, GroupDone, GroupError, Sound, Waiters;
      InReqsAll();
      if outq != [] {
        Own(0);
      }
    }

    /** Those handed out are done, and the first of the queue gets an error response
        exactly if it is done and in error. */
    lemma Handed(q: seq<Req>, handed: seq<Req>, bad: set<Req>, limit: nat)
      requires Valid() && |handed| <= |outq| && handed == outq[..|handed|] && outq == Less(q, Absorbed(q, bad)) &&
        limit > 0
      requires forall i :: 0 <= i < |handed| ==> Answerable(groups, outq, i)
      requires |handed| == limit || |handed| == |outq| || !GroupDone(groups, outq[|handed|])
      requires forall r :: r in bad <==> r in handed && GroupError(groups, r)
      requires handed != [] ==> q != [] && handed[0] == q[0]
      ensures forall r :: r in handed ==> r in outq && GroupDone(groups, r)
      ensures forall r :: r in outq ==> r in reqs
      ensures forall r, m :: r in outq && m in GroupOf(groups, r) ==> m in reqs
      ensures q != [] ==> (q[0] in bad <==> GroupDone(groups, q[0]) && GroupError(groups, q[0]))
    {
      hide Valid, GroupDone, GroupError, Less, Absorbed;
      InReqsAll();
      assert forall i :: 0 <= i < |handed| ==> Answerable(groups, outq, i) && handed[i] == outq[i];
      if handed == [] {
        assert bad == {};
        LessNone(q, Absorbed(q, bad));
      }
    }

    lemma TextsAre(was: map<Req, Texts>, handed: seq<Req>, bad: set<Req>, errorReply: nat -> seq<Byte>)
      requires Redone(was, Now(), bad, errorReply) && forall r :: r in handed ==> r in reqs
      ensures forall k :: 0 <= k < |handed| ==>
        && handed[k] in was
        && handed[k].unsent == if handed[k] in bad then errorReply(handed[k].number) else was[handed[k]].unsent
      ensures forall r :: r in reqs ==>
        && r in was && r.reply == (if r in bad then errorReply(r.number) else was[r].reply)
        && (r !in bad ==> r.unsent == was[r].unsent)
    {
      forall r | r in reqs ensures r in was && Now()[r] == Texts(r.reply, r.unsent) {
      }
    }

    // ---------- what the client gets ----------

    /** The bytes on the wire are the beginning of the responses to all requests that ever
        entered, in the order of arrival, however the servers finished them, and all of
        them when no request waits. No request has lost its response, but for those whose
        group is in error and has one for all. In front of a response there is more only
        for a request in error. */
    lemma WireOrder()
      requires Ordered()
      ensures wire <= Due(ledger) && (outq == [] ==> wire == Due(ledger)) && outq == Waiters(ledger)
      ensures forall i, j :: 0 <= i < j < |ledger| ==> ledger[i].req.number < ledger[j].req.number
      ensures forall i :: 0 <= i < |ledger| && ledger[i].fate.Collapsed? ==>
        exists j ::
          0 <= j < i && ledger[j].errored && !ledger[j].fate.Collapsed? &&
          ledger[j].req.id == ledger[i].req.id != 0
      ensures forall i :: 0 <= i < |ledger| && ledger[i].spoilt != [] ==> ledger[i].errored
    {
      hide Due, Text, Accurate, Stands, Quiet;
      TextDue(ledger, |ledger|);
      assert ledger[..|ledger|] == ledger;
      forall i | 0 <= i < |ledger| && ledger[i].fate.Waiting? ensures outq != [] {
        var k := WaitsAt(ledger, i);
      }
      forall i | 0 <= i < |ledger| && ledger[i].fate.Collapsed?
        ensures exists j ::
          0 <= j < i && ledger[j].errored && !ledger[j].fate.Collapsed? &&
          ledger[j].req.id == ledger[i].req.id != 0
      {
        var j := Root(ledger, i);
      }
    }

    /** As long as no response was spoilt there is nothing else. */
    lemma WireInOrder()
      requires Ordered() && forall i :: 0 <= i < |ledger| ==> ledger[i].spoilt == []
      ensures wire <= Responses(ledger) && (outq == [] ==> wire == Responses(ledger))
    {
      hide Due, Responses, Ordered;
      DuePlain(ledger);
      WireOrder();
    }
  }

  /** A pass over a queue of one request in error, of whose error response the kernel
      takes a part. */
  method ErrorPass(conn: Conn, r: Req, sendv: nat -> nat, reply: seq<Byte>, ghost e: Entry)
    requires conn.Valid() && conn.Ordered() && conn.entering == 0 && conn.smsg == null && forall k :: sendv(k) <= k
    requires conn.outq == [r] && conn.ledger == [e] && e.req == r && e.fate.Waiting? && r.id == 0 && r.done && r.error
    modifies conn`outq, conn`smsg, conn`done, conn`ledger, conn`wire
    modifies conn.reqs`fdone, conn.reqs`coalesced, conn.reqs`ferror, conn.reqs`reply, conn.reqs`unsent
    ensures conn.Valid() && conn.Ordered() && conn.smsg == null && r.reply == reply
    ensures
      var n := sendv(|reply|);
      && conn.wire == old(conn.wire) + reply[..n] && conn.outq == (if n == |reply| then [] else [r])
      && conn.ledger == [Entry(r, Wrote(e), reply[..n], if n == |reply| then Answered else Waiting, true)]
  {
    hide conn.Valid, conn.Ordered, conn.Told, conn.Spoils, conn.Now;
    hide Less, Absorbed, Flat, Rest, Finished, Sound, Waiters, Text, Spoilt, Unspoilt;
    conn.InReqsAll();
    var handed, n, texts;
    ghost var bad, gone, between;
    handed, n, texts, bad, gone, between := conn.SendPass(1, sendv, _ => reply);
    LessNone([r], Absorbed([r], bad));
    assert handed == [r] && texts == [reply];
    FlatOne(reply);
    RestOne(reply, n);
    FinishedOne(r, reply[n..]);
    LessOne(r, SetOf(gone));
    assert r in bad && TurnedTo(e, between[0], bad);
    Ended(conn, r, reply, n);
  }

  lemma Ended(conn: Conn, r: Req, reply: seq<Byte>, n: nat)
    requires conn.Ordered() && |conn.ledger| == 1 && conn.ledger[0].req == r && n <= |reply|
    requires r.reply == reply && r.unsent == reply[n..]
    ensures !conn.ledger[0].fate.Collapsed? ==> conn.ledger[0].part == reply[..n]
  {
    hide Sound, Waiters, Text;
    assert Accurate(conn.ledger[0]);
  }

  lemma LessOne(r: Req, gone: set<Req>)
    ensures Less([r], gone) == if r in gone then [] else [r]
  {
    assert [r][..0] == [];
  }

  /** A run in which the client gets more than its response: the error response of two
      bytes is begun with one byte, and then written from its beginning. */
  method SpoiltResponse(first: Byte, second: Byte) returns (conn: Conn, r: Req)
    ensures fresh(conn) && fresh(r) && conn.Valid() && conn.Ordered()
    ensures conn.wire == [first, first, second] && r.reply == [first, second]
    ensures conn.outq == [] && conn.ledger == [Entry(r, [first], [first, second], Answered, true)]
  {
    hide *;
    conn, r := OneError();
    NothingWrote(r, [first]);
    var reply := [first, second];
    assert reply[..1] == [first] && reply[..2] == reply;
    ErrorPass(conn, r, k => if k == 0 then 0 else 1, reply, New(r));
    ErrorPass(conn, r, k => k, reply, Entry(r, [], [first], Waiting, true));
  }

  /** A connection with one request, which has failed. */
  method OneError() returns (conn: Conn, r: Req)
    ensures fresh(conn) && fresh(r) && conn.Valid() && conn.Ordered() && conn.entering == 0 && conn.smsg == null
    ensures conn.outq == [r] && conn.ledger == [New(r)] && conn.reqs == {r} && conn.wire == []
    ensures r.id == 0 && r.done && r.error
  {
    hide *;
    conn := new Conn();
    r := new Req(1, 0, null, 0, []);
    conn.Enqueue(r);
    conn.FinishSingle(r, true, []);
    assert [] + [New(r)] == [New(r)] && [] + [r] == [r] && {} + {r} == {r};
  }

  lemma NothingWrote(r: Req, bytes: seq<Byte>)
    ensures Wrote(New(r)) == [] && Wrote(Entry(r, [], bytes, Waiting, true)) == bytes &&
      New(r) == Entry(r, [], [], Waiting, false)
  {
  }
}
