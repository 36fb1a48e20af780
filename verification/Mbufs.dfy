/** Message buffers of src/gf_mbuf.c: a fixed array with a read marker and a write
    marker, chained into the body of a message. */
module Mbufs {
  import opened ByteQueue

  class Mbuf {
    const data: array<Byte>
    var pos: nat     // read marker
    var last: nat    // write marker

    /** mbuf_get */
    constructor (size: nat)
      ensures fresh(data) && data.Length == size && Valid() && pos == last == 0
    {
      data := new Byte[size];
      pos, last := 0, 0;
    }

    ghost predicate Valid()
      reads this
    {
      pos <= last <= data.Length
    }

    /** The bytes written and not yet read. */
    ghost function Content(): (s: seq<Byte>)
      requires Valid()
      reads this, data
      ensures |s| == last - pos
    {
      data[pos..last]
    }

    function Length(): nat
      requires Valid()
      reads this
    {
      last - pos
    }

    function Size(): nat
      requires Valid()
      reads this
    {
      data.Length - last
    }

    predicate Empty()
      reads this
    {
      pos == last
    }

    predicate Full()
      reads this
    {
      last == data.Length
    }

    /** mbuf_copy: bytes go behind what is there. */
    method Copy(bytes: seq<Byte>)
      requires Valid() && |bytes| <= Size()
      modifies `last, data
      ensures Valid() && Content() == old(Content()) + bytes
      ensures last == old(last) + |bytes| && data[..old(last)] == old(data[..last])
    {
      forall i | 0 <= i < |bytes| {
        data[last + i] := bytes[i];
      }
      assert data[last..last + |bytes|] == bytes;
      assert data[pos..last] == old(data[pos..last]);
      last := last + |bytes|;
      assert data[pos..last] == old(data[pos..last]) + bytes;
    }

    /** mbuf_split without a precopy handler: what lies behind at moves to a new mbuf of
        the same size, which always has room for it. */
    method Split(at: nat) returns (nbuf: Mbuf)
      requires Valid() && pos <= at <= last
      modifies `last
      ensures fresh(nbuf) && fresh(nbuf.data) && nbuf.Valid() && nbuf.pos == 0 && nbuf.data.Length == data.Length
      ensures Valid() && last == at
      ensures old(Content()) == Content() + nbuf.Content()
    {
      nbuf := new Mbuf(data.Length);
      nbuf.Copy(data[at..last]);
      last := at;
    }
  }

  ghost predicate Usable(ms: seq<Mbuf>)
    reads ms
  {
    forall m :: m in ms ==> m.Valid()
  }

  ghost predicate Distinct(ms: seq<Mbuf>) {
    forall i, j :: 0 <= i < j < |ms| ==> ms[i] != ms[j] && ms[i].data != ms[j].data
  }

  /** The bytes of a chain of mbufs. */
  ghost function Bytes(ms: seq<Mbuf>): (s: seq<Byte>)
    requires Usable(ms)
    reads ms, set m | m in ms :: m.data
  {
    if ms == [] then [] else ms[0].Content() + Bytes(ms[1..])
  }

  lemma {:induction false} BytesConcat(ms: seq<Mbuf>, ns: seq<Mbuf>)
    requires Usable(ms) && Usable(ns)
    ensures Usable(ms + ns) && Bytes(ms + ns) == Bytes(ms) + Bytes(ns)
  {
    if ms == [] {
      assert ms + ns == ns;
    } else {
      assert (ms + ns)[0] == ms[0] && (ms + ns)[1..] == ms[1..] + ns;
      BytesConcat(ms[1..], ns);
    }
  }

  lemma BytesOne(m: Mbuf)
    requires m.Valid()
    ensures Bytes([m]) == m.Content()
  {
    assert Bytes([m][1..]) == [];
  }
}
