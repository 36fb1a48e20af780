/** A message of src/gf_message.c: a chain of mbufs and the length of what they hold. */
module Messages {
  import opened ByteQueue
  import opened Mbufs

  class Msg {
    var mhdr: seq<Mbuf>
    var mlen: nat
    var pos: nat         // how far the last mbuf has been parsed

    constructor ()
      ensures mhdr == [] && mlen == 0
    {
      mhdr, mlen, pos := [], 0, 0;
    }

    ghost predicate Valid()
      reads this, mhdr
    {
      Usable(mhdr) && Distinct(mhdr)
    }

    ghost function Content(): seq<Byte>
      requires Valid()
      reads this, mhdr, set m | m in mhdr :: m.data
    {
      Bytes(mhdr)
    }

    /** A valid message whose mlen is the sum of its mbuf lengths. */
    ghost predicate Sized()
      reads this, mhdr, set m | m in mhdr :: m.data
    {
      Valid() && mlen == |Content()|
    }

    /** The parse mark lies in the last mbuf. */
    ghost predicate Marked()
      reads this, mhdr
    {
      mhdr != [] ==> mhdr[|mhdr| - 1].pos <= pos <= mhdr[|mhdr| - 1].last
    }

    /** mbuf_insert of an mbuf that is not in the chain. */
    method Insert(mbuf: Mbuf)
      requires Valid() && mbuf.Valid() && forall m :: m in mhdr ==> m != mbuf && m.data != mbuf.data
      modifies `mhdr
      ensures mhdr == old(mhdr) + [mbuf] && Valid() && Content() == old(Content()) + mbuf.Content()
    {
      BytesConcat(mhdr, [mbuf]);
      BytesOne(mbuf);
      mhdr := mhdr + [mbuf];
    }

    /** The same at the front of the chain. */
    method InsertHead(mbuf: Mbuf)
      requires Valid() && mbuf.Valid() && forall m :: m in mhdr ==> m != mbuf && m.data != mbuf.data
      modifies `mhdr
      ensures mhdr == [mbuf] + old(mhdr) && Valid() && Content() == mbuf.Content() + old(Content())
    {
      BytesConcat([mbuf], mhdr);
      BytesOne(mbuf);
      mhdr := [mbuf] + mhdr;
    }

    /** New bytes behind what the last mbuf holds. */
    method Fill(mbuf: Mbuf, bytes: seq<Byte>)
      requires Sized() && mhdr != [] && mbuf == mhdr[|mhdr| - 1] && |bytes| <= mbuf.Size()
      modifies `mlen, mbuf`last, mbuf.data
      ensures Sized() && Content() == old(Content()) + bytes && mbuf.last == old(mbuf.last) + |bytes|
    {
      hide Bytes;
      LastOut(mhdr);
      mbuf.Copy(bytes);
      LastOut(mhdr);
      mlen := mlen + |bytes|;
    }

    /** msg_ensure_mbuf: a last mbuf with room for len bytes. */
    method EnsureMbuf(len: nat, size: nat) returns (mbuf: Mbuf)
      requires Sized() && len <= size
      modifies `mhdr
      ensures Sized() && Content() == old(Content()) && mhdr != [] && mbuf == mhdr[|mhdr| - 1] && len <= mbuf.Size()
      ensures mhdr == old(mhdr) || (mhdr == old(mhdr) + [mbuf] && fresh(mbuf) && fresh(mbuf.data))
    {
      if mhdr == [] || mhdr[|mhdr| - 1].Size() < len {
        mbuf := new Mbuf(size);
        Insert(mbuf);
      } else {
        mbuf := mhdr[|mhdr| - 1];
      }
    }

    /** msg_append */
    method Append(bytes: seq<Byte>, size: nat)
      requires Sized() && |bytes| <= size
      modifies `mhdr, `mlen, mhdr`last, set m | m in mhdr :: m.data
      ensures Sized() && Content() == old(Content()) + bytes
    {
      hide Bytes;
      var mbuf := EnsureMbuf(|bytes|, size);
      Fill(mbuf, bytes);
    }

    /** msg_prepend */
    method Prepend(bytes: seq<Byte>, size: nat)
      requires Sized() && |bytes| <= size
      modifies `mhdr, `mlen
      ensures Sized() && Content() == bytes + old(Content())
    {
      hide Bytes;
      var mbuf := new Mbuf(size);
      mbuf.Copy(bytes);
      InsertHead(mbuf);
      mlen := mlen + |bytes|;
    }

    /** The last mbuf is split at the parse mark. */
    method Cut(mbuf: Mbuf) returns (nbuf: Mbuf)
      requires Valid() && Marked() && mhdr != [] && mbuf == mhdr[|mhdr| - 1]
      modifies mbuf`last
      ensures Valid() && Marked() && mbuf.last == pos
      ensures fresh(nbuf) && fresh(nbuf.data) && nbuf.Valid() && nbuf.pos == 0 && nbuf.data.Length == mbuf.data.Length
      ensures old(Content()) == Content() + nbuf.Content()
      ensures nbuf.Content() == old(mbuf.Content())[pos - mbuf.pos..]
    {
      hide Bytes;
      LastOut(mhdr);
      nbuf := mbuf.Split(pos);
      LastOut(mhdr);
    }

    /** What msg_parsed does with unparsed bytes: they become a new message. */
    method SplitOff(mbuf: Mbuf) returns (nmsg: Msg)
      requires Sized() && Marked() && mhdr != [] && mbuf == mhdr[|mhdr| - 1]
      modifies `mlen, mbuf`last
      ensures Sized() && Marked() && mbuf.last == pos
      ensures fresh(nmsg) && |nmsg.mhdr| == 1 && fresh(nmsg.mhdr[0]) && fresh(nmsg.mhdr[0].data)
      ensures nmsg.Sized() && nmsg.Marked() && nmsg.pos == nmsg.mhdr[0].pos
      ensures nmsg.mhdr[0].data.Length == mbuf.data.Length && nmsg.mhdr[0].last - nmsg.pos == old(mbuf.last) - pos
      ensures old(Content()) == Content() + nmsg.Content()
      ensures nmsg.Content() == old(mbuf.Content())[pos - mbuf.pos..]
    {
      hide Bytes, Distinct;
      var nbuf := Cut(mbuf);
      nmsg := Around(nbuf);
      mlen := mlen - nmsg.mlen;
    }

    static method Around(nbuf: Mbuf) returns (nmsg: Msg)
      requires nbuf.Valid()
      ensures fresh(nmsg) && nmsg.mhdr == [nbuf] && nmsg.Sized() && nmsg.Marked()
      ensures nmsg.pos == nbuf.pos && nmsg.Content() == nbuf.Content()
    {
      hide Bytes;
      nmsg := new Msg();
      BytesOne(nbuf);
      nmsg.mhdr := [nbuf];
      nmsg.pos := nbuf.pos;
      nmsg.mlen := nbuf.Length();
    }

    /** msg_repair: unparsed bytes move to a new mbuf of the same message. */
    method Repair(mbuf: Mbuf)
      requires Sized() && Marked() && mhdr != [] && mbuf == mhdr[|mhdr| - 1]
      modifies `mhdr, `pos, mbuf`last
      ensures Sized() && Marked() && Content() == old(Content()) && |mhdr| == |old(mhdr)| + 1
      ensures mhdr[..|old(mhdr)|] == old(mhdr) && fresh(mhdr[|old(mhdr)|]) && fresh(mhdr[|old(mhdr)|].data)
      ensures pos == mhdr[|old(mhdr)|].pos && mhdr[|old(mhdr)|].data.Length == mbuf.data.Length
      ensures mhdr[|old(mhdr)|].Content() == old(mbuf.Content())[old(pos) - mbuf.pos..]
    {
      hide Bytes;
      var nbuf := Cut(mbuf);
      Insert(nbuf);
      pos := nbuf.pos;
    }
  }

  lemma LastOut(ms: seq<Mbuf>)
    requires Usable(ms) && ms != []
    ensures Usable(ms[..|ms| - 1]) && Bytes(ms) == Bytes(ms[..|ms| - 1]) + ms[|ms| - 1].Content()
  {
    var k := |ms| - 1;
    assert ms == ms[..k] + [ms[k]];
    BytesConcat(ms[..k], [ms[k]]);
    BytesOne(ms[k]);
  }

  lemma BytesNone()
    ensures Bytes([]) == []
  {
  }
}
