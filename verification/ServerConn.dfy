/** A server connection of src/gf_request.c and src/gf_response.c: requests of many
    clients share it, and responses are told apart only by their order. */
module ServerConn {
  import opened ByteQueue
  import opened Queues

  class Req {
    const noreply: bool
    const bytes: seq<Byte>
    var unsent: seq<Byte>   // what is left of the bytes to send
    var swallow: bool       // the client is gone; the response is to be thrown away
    var done: bool
    var peer: Rsp?

    constructor (noreply: bool, bytes: seq<Byte>)
      ensures this.noreply == noreply && this.bytes == unsent == bytes && !swallow && !done && peer == null
    {
      this.noreply, this.bytes, unsent := noreply, bytes, bytes;
      swallow, done, peer := false, false, null;
    }
  }

  class Rsp {
    const empty: bool
    const failure: bool     // the failure hook's verdict on it
    var peer: Req?

    constructor (empty: bool, failure: bool)
      ensures this.empty == empty && this.failure == failure && peer == null
    {
      this.empty, this.failure, peer := empty, failure, null;
    }
  }

  /** The requests of s that a response is expected for. */
  ghost function Expecting(s: seq<Req>): seq<Req> {
    if s == [] then []
    else Expecting(s[..|s| - 1]) + if s[|s| - 1].noreply then [] else [s[|s| - 1]]
  }

  lemma ExpectingPush(s: seq<Req>, r: Req)
    ensures Expecting(s + [r]) == Expecting(s) + if r.noreply then [] else [r]
  {
    assert (s + [r])[..|s|] == s;
  }

  lemma {:induction false} ExpectingConcat(s: seq<Req>, t: seq<Req>)
    ensures Expecting(s + t) == Expecting(s) + Expecting(t)
  {
    if t == [] {
      assert s + t == s;
    } else {
      var k := |t| - 1;
      assert s + t == (s + t[..k]) + [t[k]] && t == t[..k] + [t[k]];
      ExpectingConcat(s, t[..k]);
      ExpectingPush(s + t[..k], t[k]);
      ExpectingPush(t[..k], t[k]);
    }
  }

  lemma ExpectingNone()
    ensures Expecting([]) == []
  {
  }

  lemma BytesPush(s: seq<Req>, r: Req)
    ensures BytesOf(s + [r]) == BytesOf(s) + r.bytes
  {
    assert (s + [r])[..|s|] == s;
  }

  /** The bytes of requests, one behind the other. */
  ghost function BytesOf(s: seq<Req>): seq<Byte> {
    if s == [] then [] else BytesOf(s[..|s| - 1]) + s[|s| - 1].bytes
  }

  lemma {:induction false} BytesConcat(s: seq<Req>, t: seq<Req>)
    ensures BytesOf(s + t) == BytesOf(s) + BytesOf(t)
  {
    if t == [] {
      assert s + t == s;
    } else {
      var k := |t| - 1;
      BytesConcat(s, t[..k]);
      assert (s + t)[..|s| + k] == s + t[..k] && (s + t)[|s| + k] == t[k];
      assert BytesOf(s + t) == BytesOf(s + t[..k]) + t[k].bytes;
      hide BytesOf;
    }
  }

  function Unsents(s: seq<Req>): (texts: seq<seq<Byte>>)
    reads s`unsent
    ensures |texts| == |s| && forall i :: 0 <= i < |s| ==> texts[i] == s[i].unsent
  {
    if s == [] then [] else [s[0].unsent] + Unsents(s[1..])
  }

  function Next(s: seq<Req>, i: int): Req?
    requires -1 <= i
  {
    if i + 1 < |s| then s[i + 1] else null
  }

  datatype Fate = Filtered | Stray | Failed | Swallowed | Forwarded

  class Conn {
    var inq: seq<Req>       // forwarded, not yet written completely
    var outq: seq<Req>      // written, response outstanding
    var smsg: Req?          // the request being sent
    var done: bool
    ghost var forwarded: seq<Req>
    ghost var written: seq<Req>      // completely
    ghost var wire: seq<Byte>        // everything written to the server
    ghost var answers: seq<Rsp>      // the non-empty responses, in order
    ghost var answered: seq<Req>     // the requests they were taken for

    constructor ()
      ensures Valid() && inq == outq == [] && smsg == null && !done
      ensures forwarded == written == answered == [] && answers == [] && wire == []
    {
      inq, outq, smsg, done := [], [], null, false;
      forwarded, written, wire, answers, answered := [], [], [], [], [];
    }

    /** Nothing is lost or overtaken between the writing of a request and its answer. */
    ghost predicate History()
      reads this
    {
      && Expecting(written) == answered + outq
      && |answers| == |answered|
      && (forall r :: r in outq ==> !r.noreply)
    }

    /** On the wire are the requests written and a part of the first one that waits. */
    ghost predicate Flowing()
      reads `inq, `written, `wire, inq`unsent
    {
      && (forall i :: 1 <= i < |inq| ==> inq[i].unsent == inq[i].bytes)
      && (inq != [] ==> Split(inq[0].bytes, inq[0].unsent))
      && wire == BytesOf(written) + if inq == [] then [] else Sent(inq[0].bytes, inq[0].unsent)
    }

    ghost predicate Valid()
      reads this, inq, outq
    {
      && History() && Flowing()
      && NoDup(inq) && NoDup(outq)
      && (forall r :: r in inq ==> !r.done && r.peer == null && r !in outq)
      && (forall r :: r in outq ==> !r.done && r.peer == null)
      && (smsg != null ==> smsg in inq)
    }

    /** Requests are written in the order in which they were forwarded. */
    ghost predicate InTurn()
      reads `forwarded, `written, `inq
    {
      forwarded == written + inq
    }

    /** There is something to write for every request that waits. */
    ghost predicate Loaded()
      reads `inq, inq`unsent
    {
      forall r :: r in inq ==> r.unsent != []
    }

    /** The k-th non-empty response was taken for the k-th request written that expects
        one; in turn, that is the k-th of that kind forwarded, and the bytes on the wire
        are the beginning of the requests forwarded. */
    lemma Pairing(k: nat)
      requires Valid() && k < |answers|
      ensures k < |Expecting(written)| && answered[k] == Expecting(written)[k]
      ensures InTurn() ==> Expecting(forwarded) == answered + outq + Expecting(inq)
      ensures InTurn() ==> k < |Expecting(forwarded)| && answered[k] == Expecting(forwarded)[k]
    {
      ExpectingConcat(written, inq);
    }

    lemma WireOrder()
      requires Valid() && InTurn()
      ensures BytesOf(written) <= wire <= BytesOf(forwarded)
    {
      hide NoDup, Expecting;
      BytesConcat(written, inq);
      if inq != [] {
        FirstBytes(inq);
      }
    }

    static lemma FirstBytes(s: seq<Req>)
      requires s != []
      ensures s[0].bytes <= BytesOf(s)
    {
      assert s == [s[0]] + s[1..] && [s[0]][..0] == [];
      BytesConcat([s[0]], s[1..]);
      assert BytesOf([s[0]]) == s[0].bytes;
    }

    /** enqueue_inq, at the end of req_forward */
    method Enqueue(msg: Req)
      requires Valid() && msg !in inq && msg !in outq && !msg.done && msg.peer == null && msg.unsent == msg.bytes
      modifies this
      ensures Valid() && inq == old(inq) + [msg] && outq == old(outq) && smsg == old(smsg) && done == old(done)
      ensures forwarded == old(forwarded) + [msg] && written == old(written) && wire == old(wire)
      ensures answered == old(answered) && answers == old(answers)
      ensures old(InTurn()) ==> InTurn()
      ensures old(Loaded()) && msg.bytes != [] ==> Loaded()
    {
      hide Expecting, BytesOf, Split, Sent;
      NoDupPush(inq, msg);
      SentNone(msg.bytes);
      inq, forwarded := inq + [msg], forwarded + [msg];
    }

    /** req_send_next: the request behind the one being sent, or the first. */
    method SendNext() returns (next: Req?)
      requires Valid()
      modifies `smsg
      ensures Valid()
      ensures inq == [] ==> next == null
      ensures inq != [] && old(smsg) == null ==> next == inq[0]
      ensures forall i :: 0 <= i < |inq| && old(smsg) == inq[i] ==> next == Next(inq, i)
      ensures inq != [] ==> smsg == next
    {
      if inq == [] {
        return null;
      }
      next := inq[0];
      if smsg != null {
        next := After(smsg);
      }
      smsg := next;
    }

    /** TAILQ_NEXT in the in queue. */
    method After(msg: Req) returns (next: Req?)
      requires msg in inq && NoDup(inq)
      ensures forall i :: 0 <= i < |inq| && msg == inq[i] ==> next == Next(inq, i)
      ensures next != null ==> next in inq
    {
      var i := 0;
      while inq[i] != msg
        invariant i < |inq| && msg in inq[i..]
        decreases |inq| - i
      {
        i := i + 1;
      }
      next := Next(inq, i);
    }

    /** What msg_send and msg_send_chain take in one pass: the first requests of the in
        queue, at most limit of them. */
    method HandOut(limit: nat) returns (msgs: seq<Req>)
      requires Valid() && smsg == null && limit > 0
      modifies `smsg
      ensures Valid() && smsg == null
      ensures |msgs| == (if |inq| < limit then |inq| else limit) && msgs == inq[..|msgs|]
    {
      hide History, Flowing;
      Different(inq);
      msgs := [];
      var msg := SendNext();
      while msg != null
        invariant Valid() && smsg == msg && |msgs| <= |inq| && msgs == inq[..|msgs|]
        invariant |msgs| < limit
        invariant msg == Next(inq, |msgs| - 1)
        decreases |inq| - |msgs|
      {
        msgs := msgs + [msg];
        if |msgs| == limit {
          break;
        }
        msg := SendNext();
      }
      smsg := null;
    }

    /** req_send_done: a request without reply is finished, any other waits for its
        response. Only the first may have had something to write. */
    method SendDone(p: nat, msg: Req)
      requires Valid() && smsg == null && p < |inq| && msg == inq[p] && msg.unsent == []
      modifies this
      ensures Valid() && inq == Dropped(old(inq), p) && written == old(written) + [msg] && smsg == null
      ensures outq == old(outq) + (if msg.noreply then [] else [msg]) && wire == old(wire)
      ensures forwarded == old(forwarded) && answered == old(answered) && answers == old(answers) && done == old(done)
    {
      hide Expecting, NoDup, BytesOf, Split, Sent, Less;
      ExpectingPush(written, msg);
      BytesPush(written, msg);
      NoDupDrop(inq, p);
      NoDupPush(outq, msg);
      SentAll(msg.bytes);
      if |inq| > 1 {
        SentNone(inq[1].bytes);
      }
      inq := Dropped(inq, p);
      written := written + [msg];
      if !msg.noreply {
        outq := outq + [msg];
      }
    }

    /** The first n bytes that are left of the first request go out. */
    method Transmit(msg: Req, n: nat)
      requires Valid() && inq != [] && msg == inq[0] && n <= |msg.unsent|
      modifies `wire, msg`unsent
      ensures Valid() && msg.unsent == old(msg.unsent)[n..] && wire == old(wire) + old(msg.unsent)[..n]
    {
      hide Expecting, BytesOf, Split, Sent;
      assert forall i :: 1 <= i < |inq| ==> inq[i] != msg;
      SplitFurther(msg.bytes, msg.unsent, n);
      wire := wire + msg.unsent[..n];
      msg.unsent := msg.unsent[n..];
    }

    /** The postprocessing of one message in msg_send_chain. */
    method WriteOne(p: nat, msg: Req, nsent: nat) returns (left: nat, complete: bool)
      requires Valid() && smsg == null && p < |inq| && msg == inq[p] && (nsent > 0 ==> p == 0)
      modifies this, msg`unsent
      ensures Valid() && smsg == null && (complete <==> |old(msg.unsent)| <= nsent)
      ensures inq == if complete then Dropped(old(inq), p) else old(inq)
      ensures written == old(written) + if complete then [msg] else []
      ensures outq == old(outq) + if complete && !msg.noreply then [msg] else []
      ensures Loses(old(msg.unsent), nsent, left, msg.unsent, old(wire), wire)
      ensures forwarded == old(forwarded) && answered == old(answered) && answers == old(answers) && done == old(done)
    {
      hide Valid;
      if nsent == 0 {
        left, complete := 0, msg.unsent == [];
      } else if nsent < |msg.unsent| {
        Transmit(msg, nsent);
        left, complete := 0, false;
      } else {
        left, complete := nsent - |msg.unsent|, true;
        Transmit(msg, |msg.unsent|);
      }
      if complete {
        SendDone(p, msg);
      }
    }

    /** The postprocessing loop. */
    method WriteAll(msgs: seq<Req>, ghost texts: seq<seq<Byte>>, n: nat) returns (ghost gone: seq<Req>)
      requires Valid() && smsg == null && |msgs| <= |inq| && msgs == inq[..|msgs|] && n <= |Flat(texts)|
      requires |texts| == |msgs| && forall k :: 0 <= k < |msgs| ==> msgs[k].unsent == texts[k]
      modifies this, msgs`unsent
      ensures Valid() && smsg == null && wire == old(wire) + Flat(texts)[..n] && gone == Finished(msgs, Rest(texts, n))
      ensures inq == Less(old(inq), SetOf(gone)) && written == old(written) + gone &&
        outq == old(outq) + Expecting(gone)
      ensures forall k :: 0 <= k < |msgs| ==> msgs[k].unsent == Rest(texts, n)[k]
      ensures forwarded == old(forwarded) && answered == old(answered) && answers == old(answers) && done == old(done)
    {
      hide Valid, Expecting, NoDup, Flat, Rest, Left, Taken, Finished, Loses, Less, SetOf, Dropped, Aligned;
      Different(msgs);
      gone := [];
      ghost var rest, q0, w, wr, o := Rest(texts, n), inq, wire, written, outq;
      var i: nat, p: nat, nsent: nat := 0, 0, n;
      TakenStart(texts, n);
      AlignedStart(inq, msgs);
      WriteStart(msgs, texts, n, q0, gone);
      while i < |msgs|
        invariant 0 <= i <= |msgs| && Aligned(inq, p, msgs, i)
        invariant Valid() && smsg == null && (nsent > 0 ==> p == 0)
        invariant forall j :: i <= j < |msgs| ==> msgs[j].unsent == texts[j]
        invariant forall j :: 0 <= j < i ==> msgs[j].unsent == rest[j]
        invariant nsent == Left(texts, n, i) && wire == w + Taken(texts, n, i)
        invariant gone == Finished(msgs[..i], rest[..i]) && inq == Less(q0, SetOf(gone))
        invariant written == wr + gone && outq == o + Expecting(gone)
        invariant forwarded == old(forwarded) && answered == old(answered) && answers == old(answers) &&
          done == old(done)
      {
        MovedOn(inq, p, msgs, i);
        FinishedStep(msgs, rest, i);
        ExpectingPush(gone, msgs[i]);
        Single();
        LessMore(q0, gone, p);
        var complete;
        nsent, complete := WriteOne(p, msgs[i], nsent);
        Lost(texts, n, i, nsent, msgs[i].unsent, w, wire);
        if complete {
          gone := gone + [msgs[i]];
        } else {
          p := p + 1;
        }
        i := i + 1;
      }
      TakenEnd(texts, n);
      WriteEnd(msgs, texts, n);
    }

    lemma Different(msgs: seq<Req>)
      requires Valid() && |msgs| <= |inq| && msgs == inq[..|msgs|]
      ensures forall i, j :: 0 <= i < j < |msgs| ==> msgs[i] != msgs[j]
    {
      hide Expecting, BytesOf;
    }

    lemma Single()
      requires Valid()
      ensures NoDup(inq)
    {
      hide Expecting, BytesOf, NoDup;
    }

    static lemma WriteStart(msgs: seq<Req>, texts: seq<seq<Byte>>, n: nat, q: seq<Req>, gone: seq<Req>)
      requires |texts| == |msgs| && gone == []
      ensures Finished(msgs[..0], Rest(texts, n)[..0]) == gone && Less(q, SetOf(gone)) == q && Expecting(gone) == []
    {
      LessNone(q, SetOf(gone));
    }

    static lemma WriteEnd(msgs: seq<Req>, texts: seq<seq<Byte>>, n: nat)
      requires |texts| == |msgs|
      ensures msgs[..|msgs|] == msgs && Rest(texts, n)[..|msgs|] == Rest(texts, n)
    {
    }

    /** One send pass: of what the messages handed out have left the kernel takes the first
        sendv(nsend) of nsend bytes, and those with nothing left are finished. In turn it
        stays exactly if no empty request is finished behind one that is not. */
    method SendPass(limit: nat, sendv: nat -> nat)
      returns (msgs: seq<Req>, texts: seq<seq<Byte>>, n: nat, ghost gone: seq<Req>)
      requires Valid() && smsg == null && limit > 0 && forall k :: sendv(k) <= k
      modifies this, inq`unsent
      ensures Valid() && smsg == null && msgs == old(inq)[..Min(limit, |old(inq)|)]
      ensures texts == old(Unsents(inq[..Min(limit, |inq|)]))
      ensures n == sendv(|Flat(texts)|) && wire == old(wire) + Flat(texts)[..n] &&
        gone == Finished(msgs, Rest(texts, n))
      ensures inq == Less(old(inq), SetOf(gone)) && written == old(written) + gone &&
        outq == old(outq) + Expecting(gone)
      ensures forall k :: 0 <= k < |msgs| ==> msgs[k].unsent == Rest(texts, n)[k]
      ensures forwarded == old(forwarded) && answered == old(answered) && answers == old(answers) && done == old(done)
      ensures old(InTurn()) ==>
        (InTurn() <==> forall i, j :: 0 <= i < j < |msgs| && texts[j] == [] ==> Rest(texts, n)[i] == [])
      ensures old(Loaded()) ==> Loaded() && gone <= msgs && (old(InTurn()) ==> InTurn())
    {
      hide Valid, Expecting, NoDup, Flat, Rest, Left, Finished, Less, SetOf, Dropped;
      msgs := HandOut(limit);
      texts := Unsents(msgs);
      n := sendv(|Flat(texts)|);
      ghost var q, wr := inq, written;
      ghost var loaded := Loaded();
      Single();
      Others(q, msgs);
      gone := WriteAll(msgs, texts, n);
      if forwarded == wr + q {
        Turns(q, wr, msgs, texts, n, gone);
      }
      if loaded {
        StillLoaded(q, msgs, texts, n, gone);
      }
    }

    /** Of requests in turn, some finished ones leave. */
    lemma Turns(q: seq<Req>, wr: seq<Req>, msgs: seq<Req>, texts: seq<seq<Byte>>, n: nat, gone: seq<Req>)
      requires |texts| == |msgs| <= |q| && msgs == q[..|msgs|] && NoDup(q) && gone == Finished(msgs, Rest(texts, n))
      requires inq == Less(q, SetOf(gone)) && written == wr + gone && forwarded == wr + q
      ensures InTurn() <==> forall i, j :: 0 <= i < j < |msgs| && texts[j] == [] ==> Rest(texts, n)[i] == []
    {
      hide Less, SetOf, Finished, Rest, NoDup, Overtakes;
      var tail := q[|msgs|..];
      assert q == msgs + tail;
      InFront(msgs, tail, Rest(texts, n));
      OvertakesEmpty(texts, n);
      assert written + inq == wr + (gone + inq);
      assert wr + (gone + inq) == wr + q <==> gone + inq == q by {
        SameBehind(wr, gone + inq, q);
      }
    }

    static lemma Others(q: seq<Req>, msgs: seq<Req>)
      requires NoDup(q) && |msgs| <= |q| && msgs == q[..|msgs|]
      ensures forall k :: |msgs| <= k < |q| ==> q[k] !in msgs
    {
    }

    static lemma SameBehind(a: seq<Req>, b: seq<Req>, c: seq<Req>)
      ensures a + b == a + c <==> b == c
    {
      if a + b == a + c {
        assert b == (a + b)[|a|..] && c == (a + c)[|a|..];
      }
    }

    /** With something to write for each, the first ones are finished. */
    static lemma FirstOnes(msgs: seq<Req>, texts: seq<seq<Byte>>, n: nat)
      requires |texts| == |msgs| && forall k :: 0 <= k < |texts| ==> texts[k] != []
      ensures Finished(msgs, Rest(texts, n)) <= msgs
    {
      hide Finished, Rest;
      var f := FinishedPrefix(msgs, texts, n);
    }

    lemma StillLoaded(q: seq<Req>, msgs: seq<Req>, texts: seq<seq<Byte>>, n: nat, gone: seq<Req>)
      requires |texts| == |msgs| <= |q| && msgs == q[..|msgs|] && NoDup(q) && gone == Finished(msgs, Rest(texts, n))
      requires inq == Less(q, SetOf(gone)) && forall k :: 0 <= k < |msgs| ==> msgs[k].unsent == Rest(texts, n)[k]
      requires forall k :: |msgs| <= k < |q| ==> q[k].unsent != []
      requires forall k :: 0 <= k < |texts| ==> texts[k] != []
      ensures Loaded() && gone <= msgs
    {
      hide Less, Finished, Rest;
      FirstOnes(msgs, texts, n);
      LessIn(q, SetOf(gone));
      FinishedIn(msgs, Rest(texts, n));
    }

    /** The first request that waits for a response has it. */
    method Answer(pmsg: Req, ghost msg: Rsp)
      requires Valid() && outq != [] && pmsg == outq[0]
      modifies `outq, `answered, `answers, pmsg`done
      ensures Valid() && outq == old(outq)[1..] && pmsg.done && pmsg !in outq && pmsg !in inq
      ensures answered == old(answered) + [pmsg] && answers == old(answers) + [msg]
    {
      hide Expecting, Flowing, NoDup;
      NoDupPop(outq);
      outq := outq[1..];
      pmsg.done := true;
      answered, answers := answered + [pmsg], answers + [msg];
    }

    /** rsp_recv_done: rsp_filter and rsp_forward. */
    method RecvDone(msg: Rsp) returns (fate: Fate)
      requires Valid() && !done && msg.peer == null
      modifies this, msg, outq`done, outq`peer
      ensures Valid() && inq == old(inq) && written == old(written) && forwarded == old(forwarded) && wire == old(wire)
      ensures fate.Filtered? <==> msg.empty
      ensures fate.Stray? <==> !msg.empty && old(outq) == []
      ensures fate.Failed? <==> !msg.empty && old(outq) != [] && msg.failure
      ensures fate.Filtered? || fate.Stray? || fate.Failed? ==>
        outq == old(outq) && answered == old(answered) && answers == old(answers) && msg.peer == null
      ensures smsg == old(smsg) && (done <==> fate.Stray? || fate.Failed?)
      ensures fate.Swallowed? || fate.Forwarded? ==>
        && old(outq) != [] && outq == old(outq)[1..] && old(outq)[0].done
        && answered == old(answered) + [old(outq)[0]] && answers == old(answers) + [msg]
        && (fate.Swallowed? <==> old(outq[0].swallow))
        && (fate.Swallowed? ==> msg.peer == null && old(outq)[0].peer == null)
        && (fate.Forwarded? ==> msg.peer == old(outq)[0] && old(outq)[0].peer == msg)
    {
      hide Expecting, Flowing, NoDup;
      if msg.empty {
        return Filtered;
      }
      if outq == [] {
        done := true;
        return Stray;
      }
      var pmsg := outq[0];
      if msg.failure {
        done := true;
        return Failed;
      }
      Answer(pmsg, msg);
      if pmsg.swallow {
        return Swallowed;
      }
      pmsg.peer, msg.peer := msg, pmsg;
      return Forwarded;
    }
  }

  /** A run with an empty request: it is finished in front of another, of which nothing was
      written, and gets its response. */
  method OutOfTurn(byte: Byte) returns (conn: Conn, first: Req, second: Req, rsp: Rsp)
    ensures conn.Valid() && conn.forwarded == [first, second] && first != second && !first.noreply && !second.noreply
    ensures conn.written == [second, first] && conn.wire == [byte] == first.bytes && conn.answered == [second]
    ensures rsp.peer == second && !conn.InTurn()
  {
    hide *;
    conn, first, second := TwoForwarded(byte);
    Overtake(conn, first, second);
    Rest1(conn, first);
    rsp := new Rsp(false, false);
    var fate := conn.RecvDone(rsp);
    NotInTurn(conn, first, second);
  }

  lemma NotInTurn(conn: Conn, first: Req, second: Req)
    requires first != second && conn.forwarded == [first, second] && conn.written == [second, first]
    ensures !conn.InTurn()
  {
    assert (conn.written + conn.inq)[0] == second;
  }

  method TwoForwarded(byte: Byte) returns (conn: Conn, first: Req, second: Req)
    ensures conn.Valid() && conn.smsg == null && !conn.done && conn.inq == conn.forwarded == [first, second]
    ensures conn.outq == conn.written == conn.answered == [] && conn.wire == []
    ensures fresh(conn) && fresh(first) && fresh(second) && first != second && !first.noreply && !second.noreply
    ensures first.bytes == first.unsent == [byte] && second.unsent == [] && !second.swallow
  {
    hide *;
    conn := new Conn();
    first := new Req(false, [byte]);
    second := new Req(false, []);
    assert [] + [first] == [first] && [first] + [second] == [first, second];
    conn.Enqueue(first);
    conn.Enqueue(second);
  }

  method Overtake(conn: Conn, first: Req, second: Req)
    requires conn.Valid() && conn.smsg == null && conn.inq == [first, second] && conn.outq == [] && conn.written == []
    requires first.unsent != [] && second.unsent == [] && first != second && !second.noreply
    modifies conn, conn.inq`unsent
    ensures conn.Valid() && conn.smsg == null && conn.inq == [first] && conn.outq == conn.written == [second]
    ensures conn.wire == old(conn.wire) && first.unsent == old(first.unsent)
    ensures conn.forwarded == old(conn.forwarded) && conn.answered == old(conn.answered) && conn.done == old(conn.done)
  {
    hide conn.Valid, Less, Flat, Rest, Finished, Expecting;
    var msgs, texts, n;
    ghost var gone;
    msgs, texts, n, gone := conn.SendPass(2, k => 0);
    assert msgs == [first, second] && texts == [old(first.unsent), []];
    SecondOnly(first, second, old(first.unsent));
  }

  lemma SecondOnly(first: Req, second: Req, text: seq<Byte>)
    requires text != [] && first != second && !second.noreply
    ensures var rest := Rest([text, []], 0);
      && rest == [text, []] && Finished([first, second], rest) == [second]
      && Less([first, second], SetOf([second])) == [first] && Expecting([second]) == [second]
  {
    hide Rest, Finished, Less, Expecting;
    RestShape([text, []], 0, 0);
    RestShape([text, []], 0, 1);
    var rest := Rest([text, []], 0);
    FinishedOne(first, text);
    assert [first, second][..1] == [first] && [first, second][..2] == [first, second];
    assert rest[..1] == [text] && rest[..2] == rest;
    FinishedStep([first, second], rest, 1);
    LessNone([first], SetOf([second]));
    LessPush([first], second, SetOf([second]));
    assert [first] + [second] == [first, second];
    ExpectingNone();
    ExpectingPush([], second);
    assert [] + [second] == [second];
  }

  /** The only request is written. */
  method Rest1(conn: Conn, r: Req)
    requires conn.Valid() && conn.smsg == null && conn.inq == [r] && !r.noreply
    modifies conn, conn.inq`unsent
    ensures conn.Valid() && conn.inq == [] && conn.wire == old(conn.wire) + old(r.unsent)
    ensures conn.written == old(conn.written) + [r] && conn.outq == old(conn.outq) + [r]
    ensures conn.forwarded == old(conn.forwarded) && conn.answered == old(conn.answered) && conn.done == old(conn.done)
  {
    hide conn.Valid, Less, Flat, Rest, Finished, Expecting;
    var msgs, texts, n;
    ghost var gone;
    msgs, texts, n, gone := conn.SendPass(1, k => k);
    var text := texts[0];
    assert msgs == [r] && texts == [text];
    FlatOne(text);
    RestOne(text, n);
    FinishedOne(r, []);
    LessAll([r], SetOf([r]));
    ExpectingNone();
    ExpectingPush([], r);
    assert [] + [r] == [r] && text[n..] == [];
  }
}
