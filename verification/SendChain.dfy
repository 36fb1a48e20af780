/** msg_send_chain of src/gf_message.c: many messages go out in one writev, which may
    take any part of them. */
module SendChain {
  import opened ByteQueue
  import opened Mbufs
  import opened Messages

  const IOV_LIMIT := 128
  const BYTE_LIMIT := 0x7fff_ffff_ffff_ffff

  /** One entry of the io vector: the first len unsent bytes of an mbuf. */
  datatype Iovec = Iovec(base: Mbuf, len: nat)

  ghost predicate InBase(iov: seq<Iovec>)
    reads set v | v in iov :: v.base
  {
    forall v :: v in iov ==> v.base.Valid() && 0 < v.len <= v.base.last - v.base.pos
  }

  /** What writev finds behind the vector. */
  ghost function IovBytes(iov: seq<Iovec>): (s: seq<Byte>)
    requires InBase(iov)
    reads (set v | v in iov :: v.base), set v | v in iov :: v.base.data
  {
    if iov == [] then []
    else
      var v := iov[|iov| - 1];
      IovBytes(iov[..|iov| - 1]) + v.base.Content()[..v.len]
  }

  // ---------- the queue ----------

  /** The messages are well formed, with all their mbufs among ms. */
  ghost predicate Ready(msgs: seq<Msg>, ms: set<Mbuf>)
    reads msgs, ms
  {
    forall msg :: msg in msgs ==> (forall m :: m in msg.mhdr ==> m in ms) && msg.Valid()
  }

  /** No mbuf is in two messages. */
  ghost predicate Apart(msgs: seq<Msg>)
    reads msgs
  {
    forall i, j, m :: 0 <= i < j < |msgs| && m in msgs[i].mhdr ==> m !in msgs[j].mhdr
  }

  /** The unsent bytes, message by message. */
  ghost predicate Shows(msgs: seq<Msg>, ms: set<Mbuf>, was: seq<seq<Byte>>)
    requires Ready(msgs, ms)
    reads msgs, ms, set m | m in ms :: m.data
  {
    |was| == |msgs| && forall i :: 0 <= i < |msgs| ==> msgs[i].Content() == was[i]
  }

  lemma IovPush(iov: seq<Iovec>, v: Iovec)
    requires InBase(iov) && v.base.Valid() && 0 < v.len <= v.base.last - v.base.pos
    ensures InBase(iov + [v]) && IovBytes(iov + [v]) == IovBytes(iov) + v.base.Content()[..v.len]
  {
    assert (iov + [v])[..|iov|] == iov;
  }

  /** The vector gets the mbufs of one message, as far as the limits allow. */
  method GatherMsg(msg: Msg, iov0: seq<Iovec>, nsend0: nat, ghost before: seq<Byte>)
    returns (iov: seq<Iovec>, nsend: nat)
    requires msg.Valid() && InBase(iov0) && IovBytes(iov0) == before && |before| == nsend0
    requires |iov0| < IOV_LIMIT && nsend0 < BYTE_LIMIT
    ensures InBase(iov) && |iov| <= IOV_LIMIT && nsend <= BYTE_LIMIT
    ensures nsend == |IovBytes(iov)| && IovBytes(iov) <= before + msg.Content()
    ensures |iov| < IOV_LIMIT && nsend < BYTE_LIMIT ==> IovBytes(iov) == before + msg.Content()
  {
    hide IovBytes, Bytes, InBase;
    iov, nsend := iov0, nsend0;
    var i := 0;
    BytesNone();
    assert msg.mhdr[..0] == [];
    while i < |msg.mhdr| && |iov| < IOV_LIMIT && nsend < BYTE_LIMIT
      invariant i <= |msg.mhdr| && InBase(iov) && |iov| <= IOV_LIMIT && nsend <= BYTE_LIMIT
      invariant nsend == |IovBytes(iov)| && IovBytes(iov) <= before + Bytes(msg.mhdr[..i])
      invariant nsend < BYTE_LIMIT ==> IovBytes(iov) == before + Bytes(msg.mhdr[..i])
    {
      var mbuf := msg.mhdr[i];
      assert msg.mhdr[..i + 1] == msg.mhdr[..i] + [mbuf];
      BytesConcat(msg.mhdr[..i], [mbuf]);
      BytesOne(mbuf);
      i := i + 1;
      if !mbuf.Empty() {
        var mlen := mbuf.Length();
        if nsend + mlen > BYTE_LIMIT {
          mlen := BYTE_LIMIT - nsend;
        }
        IovPush(iov, Iovec(mbuf, mlen));
        PrefixStep(IovBytes(iov), before, Bytes(msg.mhdr[..i - 1]), mbuf.Content(), mlen);
        iov := iov + [Iovec(mbuf, mlen)];
        nsend := nsend + mlen;
      }
    }
    assert msg.mhdr == msg.mhdr[..i] + msg.mhdr[i..];
    BytesConcat(msg.mhdr[..i], msg.mhdr[i..]);
  }


  lemma PrefixStep(sofar: seq<Byte>, before: seq<Byte>, part: seq<Byte>, c: seq<Byte>, n: nat)
    requires sofar == before + part && n <= |c|
    ensures sofar + c[..n] <= before + (part + c)
    ensures n == |c| ==> sofar + c[..n] == before + (part + c)
  {
    assert before + (part + c) == sofar + c[..n] + c[n..];
  }

  /** The preprocessing loop: messages are taken from the connection, the one given and
      then what send_next hands out, until the vector is full or there are no more. */
  method Gather(msgs: seq<Msg>, ghost ms: set<Mbuf>, ghost was: seq<seq<Byte>>)
    returns (iov: seq<Iovec>, nsend: nat, used: nat)
    requires Ready(msgs, ms) && Shows(msgs, ms, was) && msgs != []
    ensures 1 <= used <= |msgs|
    ensures InBase(iov) && |iov| <= IOV_LIMIT && nsend <= BYTE_LIMIT
    ensures nsend == |IovBytes(iov)| && IovBytes(iov) <= Flat(was[..used])
    ensures |iov| < IOV_LIMIT && nsend < BYTE_LIMIT ==> used == |msgs| && IovBytes(iov) == Flat(was)
  {
    iov, nsend, used := [], 0, 0;
    while true
      invariant used < |msgs| && InBase(iov) && |iov| < IOV_LIMIT && nsend < BYTE_LIMIT
      invariant nsend == |IovBytes(iov)| && IovBytes(iov) == Flat(was[..used])
      decreases |msgs| - used
    {
      FlatStep(was, used);
      iov, nsend := GatherMsg(msgs[used], iov, nsend, Flat(was[..used]));
      used := used + 1;
      if |iov| >= IOV_LIMIT || nsend >= BYTE_LIMIT {
        break;
      }
      if used == |msgs| {
        assert was[..used] == was;
        break;
      }
    }
  }

  /** A chain around its i-th mbuf. */
  lemma SplitAt(ms: seq<Mbuf>, i: nat)
    requires Usable(ms) && Distinct(ms) && i < |ms|
    ensures Usable(ms[..i]) && Usable(ms[i..]) && Usable(ms[i + 1..])
    ensures ms[i] !in ms[..i] && ms[i] !in ms[i + 1..]
    ensures Bytes(ms) == Bytes(ms[..i]) + Bytes(ms[i..])
    ensures Bytes(ms[i..]) == ms[i].Content() + Bytes(ms[i + 1..])
    ensures Bytes(ms[..i + 1]) == Bytes(ms[..i]) + ms[i].Content()
  {
    hide Bytes;
    assert ms == ms[..i] + ms[i..];
    BytesConcat(ms[..i], ms[i..]);
    assert ms[i..] == [ms[i]] + ms[i + 1..];
    BytesConcat([ms[i]], ms[i + 1..]);
    assert ms[..i + 1] == ms[..i] + [ms[i]];
    BytesConcat(ms[..i], [ms[i]]);
    BytesOne(ms[i]);
  }

  /** One mbuf loses what was sent of it. */
  method Take(ghost ms: seq<Mbuf>, ghost i: nat, mbuf: Mbuf, left: nat) returns (left': nat, complete: bool)
    requires Usable(ms) && Distinct(ms) && i < |ms| && Bytes(ms[..i]) == [] && mbuf == ms[i]
    modifies mbuf`pos
    ensures Usable(ms)
    ensures complete ==> left' <= left <= left' + |old(Bytes(ms))| && Bytes(ms) == old(Bytes(ms))[left - left'..]
    ensures complete ==> Bytes(ms[..i + 1]) == []
    ensures !complete ==> left' == 0 && left < |old(Bytes(ms))| && Bytes(ms) == old(Bytes(ms))[left..]
  {
    hide Bytes;
    SplitAt(ms, i);
    left', complete := left, true;
    if !mbuf.Empty() {
      var mlen := mbuf.Length();
      if left < mlen {
        mbuf.pos := mbuf.pos + left;
        left', complete := 0, false;
      } else {
        mbuf.pos := mbuf.last;
        left' := left - mlen;
      }
    }
    SplitAt(ms, i);
  }

  /** The mbufs of one message are marked empty up to the nsent-th byte. */
  method Drain(msg: Msg, nsent: nat) returns (left: nat, complete: bool)
    requires msg.Valid() && nsent > 0
    modifies msg.mhdr`pos
    ensures msg.Valid()
    ensures complete <==> nsent >= |old(msg.Content())|
    ensures left == if complete then nsent - |old(msg.Content())| else 0
    ensures msg.Content() == old(msg.Content())[Min(nsent, |old(msg.Content())|)..]
  {
    hide Bytes;
    left, complete := nsent, true;
    var ms := msg.mhdr;
    var i := 0;
    ghost var all := msg.Content();
    BytesNone();
    assert ms[..0] == [];
    while i < |ms|
      invariant i <= |ms| && Usable(ms)
      invariant complete && left <= nsent <= left + |all|
      invariant Bytes(ms[..i]) == [] && Bytes(ms) == all[nsent - left..]
      modifies ms`pos
    {
      left, complete := Take(ms, i, ms[i], left);
      if !complete {
        break;
      }
      i := i + 1;
    }
    assert complete ==> ms[..i] == ms;
  }

  /** mlen says which messages are empty; it is not counted down while sending, so a
      message must be taken off the queue when its last byte goes. */
  ghost predicate Counted(msgs: seq<Msg>, was: seq<seq<Byte>>)
    requires |was| == |msgs|
    reads msgs
  {
    forall i :: 0 <= i < |msgs| ==> (msgs[i].mlen == 0 <==> was[i] == [])
  }

  lemma OthersApart(msgs: seq<Msg>, i: nat, k: nat)
    requires Apart(msgs) && i < |msgs| && k < |msgs| && i != k
    ensures forall j :: 0 <= j < |msgs[k].mhdr| ==> msgs[k].mhdr[j] !in msgs[i].mhdr
  {
  }

  /** The postprocessing of one message. */
  method Settle(msgs: seq<Msg>, ghost ms: set<Mbuf>, i: nat, msg: Msg, nsent: nat, ghost now: seq<seq<Byte>>)
    returns (left: nat, complete: bool)
    requires Ready(msgs, ms) && Apart(msgs) && i < |msgs| && msg == msgs[i]
    requires Shows(msgs, ms, now) && (msg.mlen == 0 <==> now[i] == [])
    modifies msg.mhdr`pos
    ensures Ready(msgs, ms)
    ensures Shows(msgs, ms, now[i := now[i][Min(nsent, |now[i]|)..]])
    ensures complete <==> |now[i]| <= nsent
    ensures left == if nsent <= |now[i]| then 0 else nsent - |now[i]|
  {
    hide Bytes, Apart;
    if nsent == 0 {
      left, complete := 0, msg.mlen == 0;
    } else {
      left, complete := Drain(msg, nsent);
      forall k | 0 <= k < |msgs| && k != i ensures msgs[k].Content() == now[k] {
        OthersApart(msgs, i, k);
      }
    }
  }

  /** The postprocessing loop: the first used messages lose what was sent. */
  method Postprocess(msgs: seq<Msg>, ghost ms: set<Mbuf>, used: nat, n: nat, ghost was: seq<seq<Byte>>)
    returns (done: seq<Msg>)
    requires Ready(msgs, ms) && Apart(msgs) && Shows(msgs, ms, was) && Counted(msgs, was)
    requires used <= |msgs| == |was| && n <= |Flat(was[..used])|
    modifies ms`pos
    ensures Ready(msgs, ms) && Shows(msgs, ms, Rest(was, n))
    ensures done == Finished(msgs[..used], Rest(was, n)[..used])
  {
    hide *;
    done := [];
    var i, nsent := 0, n;
    ghost var rest, now := Rest(was, n), was;
    Begin(msgs, was, n);
    ShrunkStart(was, n);
    while i < used
      invariant i <= used && |rest| == |was| == |msgs| && now == Shrunk(was, n, i)
      invariant Ready(msgs, ms) && Shows(msgs, ms, now) && nsent == Left(was, n, i)
      invariant done == Finished(msgs[..i], rest[..i])
    {
      NowStep(was, n, i, now, nsent);
      FinishedStep(msgs, rest, i);
      SettleReady(msgs, ms, i, was);
      var complete;
      nsent, complete := Settle(msgs, ms, i, msgs[i], nsent, now);
      now := Shrunk(was, n, i + 1);
      if complete {
        done := done + [msgs[i]];
      }
      i := i + 1;
    }
    ShrunkEnd(was, n, used);
  }

  lemma Begin(msgs: seq<Msg>, was: seq<seq<Byte>>, n: nat)
    ensures Left(was, n, 0) == n && Finished(msgs[..0], Rest(was, n)[..0]) == []
  {
  }

  lemma SettleReady(msgs: seq<Msg>, ms: set<Mbuf>, i: nat, was: seq<seq<Byte>>)
    requires i < |msgs| == |was| && Ready(msgs, ms) && Counted(msgs, was)
    ensures msgs[i].mlen == 0 <==> was[i] == []
    ensures forall m :: m in msgs[i].mhdr ==> m in ms
  {
  }

  const EAGAIN := -2

  /** msg_send_chain. The kernel takes sendv(nsend) of the nsend bytes offered to it, or
      answers with a negative error; was are the unsent bytes on entry, offered is what
      the vector of the given number of entries holds, and wire is what goes out. */
  method Send(msgs: seq<Msg>, sendv: nat -> int, ghost ms: set<Mbuf>, ghost was: seq<seq<Byte>>)
    returns (ok: bool, entries: nat, used: nat, done: seq<Msg>, ghost offered: seq<Byte>, ghost wire: seq<Byte>)
    requires Ready(msgs, ms) && Apart(msgs) && |was| == |msgs| && Shows(msgs, ms, was) && Counted(msgs, was) &&
      msgs != []
    requires forall k :: sendv(k) <= k
    modifies ms`pos
    ensures 1 <= used <= |msgs| && entries <= 128 && |offered| <= 0x7fff_ffff_ffff_ffff
    ensures offered <= Flat(was[..used])
    ensures entries == 128 || |offered| == 0x7fff_ffff_ffff_ffff || (used == |msgs| && offered == Flat(was))
    ensures wire == if offered != [] && sendv(|offered|) > 0 then offered[..sendv(|offered|)] else []
    ensures Ready(msgs, ms) && Shows(msgs, ms, Rest(was, |wire|))
    ensures wire + Flat(Rest(was, |wire|)) == Flat(was)
    ensures done == Finished(msgs[..used], Rest(was, |wire|)[..used])
    ensures forall k :: 0 <= k < |msgs| && (k < used ==> Rest(was, |wire|)[k] != []) ==>
      (msgs[k].mlen == 0 <==> Rest(was, |wire|)[k] == [])
    ensures ok <==> offered == [] || sendv(|offered|) >= 0 || sendv(|offered|) == EAGAIN
  {
    assert IOV_LIMIT == 128 && BYTE_LIMIT == 0x7fff_ffff_ffff_ffff;
    hide *;
    var iov, nsend;
    iov, nsend, used := Gather(msgs, ms, was);
    entries, offered := |iov|, IovBytes(iov);
    var n := if nsend != 0 then sendv(nsend) else 0;
    var nsent := if n > 0 then n else 0;
    wire := offered[..nsent];
    Conserved(was, used, offered, nsent);
    done := Postprocess(msgs, ms, used, nsent, was);
    StillCounted(msgs, was, used, nsent);
    ok := n >= 0 || n == EAGAIN;
  }

  lemma Conserved(was: seq<seq<Byte>>, used: nat, offered: seq<Byte>, nsent: nat)
    requires used <= |was| && offered <= Flat(was[..used]) && nsent <= |offered|
    ensures nsent <= |Flat(was[..used])| && offered[..nsent] + Flat(Rest(was, nsent)) == Flat(was)
  {
    Longer(was, used, |was|);
    RestConserves(was, nsent);
    assert was[..|was|] == was;
    assert offered[..nsent] == Flat(was)[..nsent];
  }

  lemma StillCounted(msgs: seq<Msg>, was: seq<seq<Byte>>, used: nat, n: nat)
    requires |was| == |msgs| && Counted(msgs, was) && used <= |was| && n <= |Flat(was[..used])|
    ensures forall k :: 0 <= k < |msgs| && (k < used ==> Rest(was, n)[k] != []) ==>
      (msgs[k].mlen == 0 <==> Rest(was, n)[k] == [])
  {
    Behind(was, n, used);
    forall k | 0 <= k < |msgs| && (k < used ==> Rest(was, n)[k] != [])
      ensures msgs[k].mlen == 0 <==> Rest(was, n)[k] == []
    {
      if k < used { RestShape(was, n, k); } else { assert Rest(was, n)[k] == Rest(was, n)[used..][k - used]; }
    }
  }
}