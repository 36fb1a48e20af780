/** msg_recv_chain of src/gf_message.c: bytes from a connection are cut into messages
    by a parser, and what is left over waits for more. */
module RecvChain {
  import opened ByteQueue
  import opened Mbufs
  import opened Messages

  datatype Kind = Ok | Again | Repair | Failed
  datatype Parse = Parse(kind: Kind, consumed: nat)

  /** The parser hook: its verdict in its k-th call, when so many bytes are unparsed. */
  type Parser = (nat, nat) -> Parse

  /** It moves the mark within the last mbuf, and a message is not made of nothing. */
  ghost predicate Contract(parser: Parser) {
    forall k, unparsed :: parser(k, unparsed).consumed <= unparsed &&
      (parser(k, unparsed).kind.Ok? && unparsed > 0 ==> parser(k, unparsed).consumed > 0)
  }

  /** What a completed message does to its connection. */
  datatype Outcome = Outcome(err: int, quit: bool)
  datatype Recv = Data(bytes: seq<Byte>) | NotReady | Broken

  const EIO := 5

  /** A message with mbufs of the given size, mlen the sum of their lengths, and the
      parse mark in the last of them. */
  ghost predicate Sound(msg: Msg, size: nat)
    reads msg, msg.mhdr, set m | m in msg.mhdr :: m.data
  {
    msg.Sized() && msg.Marked() && forall m :: m in msg.mhdr ==> m.data.Length == size
  }

  ghost function Unparsed(msg: Msg): int
    reads msg, msg.mhdr
  {
    if msg.mhdr == [] then 0 else msg.mhdr[|msg.mhdr| - 1].last - msg.pos
  }

  class Conn {
    const size: nat          // of an mbuf
    var rmsg: Msg?           // the message being received
    var eof: bool
    var err: int
    var parses: nat
    ghost var stream: seq<Byte>              // all bytes received
    ghost var delivered: seq<seq<Byte>>      // the completed messages
    ghost var dropped: seq<Byte>             // an incomplete message thrown away at the end

    constructor (size: nat)
      requires size > 0
      ensures Valid() && this.size == size && !eof && err == 0 && stream == [] && rmsg == null
    {
      this.size := size;
      rmsg, eof, err, parses := null, false, 0, 0;
      stream, delivered, dropped := [], [], [];
    }

    /** Every byte received is in a completed message, or pending, or was dropped when
        the stream had ended. */
    ghost predicate Conserved(pending: seq<Byte>)
      reads `rmsg, `eof, `stream, `delivered, `dropped
    {
      && size > 0
      && stream == Flat(delivered) + pending + dropped
      && (dropped != [] ==> eof && rmsg == null)
    }

    ghost predicate Valid()
      reads `rmsg, `eof, `stream, `delivered, `dropped, rmsg, if rmsg == null then [] else rmsg.mhdr
      reads if rmsg == null then {} else set m: Mbuf | m in rmsg.mhdr :: m.data
    {
      if rmsg == null then Conserved([]) else Sound(rmsg, size) && Conserved(rmsg.Content())
    }

    /** recv_next: a connection whose input has ended drops an incomplete message. */
    method RecvNext(alloc: bool) returns (msg: Msg?)
      requires Valid()
      modifies `rmsg, `dropped
      ensures Valid() && msg == rmsg
      ensures eof ==> msg == null
      ensures !eof && (old(rmsg) != null || !alloc) ==> rmsg == old(rmsg)
      ensures !eof && old(rmsg) == null && alloc ==> fresh(rmsg) && rmsg.mhdr == []
    {
      hide Bytes, Flat;
      if eof {
        if rmsg != null {
          dropped := rmsg.Content();
          rmsg := null;
        }
        return null;
      }
      if rmsg == null && alloc {
        rmsg := new Msg();
        BytesNone();
      }
      msg := rmsg;
    }

    /** recv_done: the message is complete, and nmsg is the next one. */
    method RecvDone(nmsg: Msg?, outcome: Outcome, ghost content: seq<Byte>, ghost rest: seq<Byte>)
      requires Conserved(content + rest) && dropped == []
      modifies this
      ensures Conserved(rest) && rmsg == nmsg && delivered == old(delivered) + [content] && stream == old(stream)
      ensures parses == old(parses) && (old(eof) ==> eof) && dropped == []
      ensures eof == (old(eof) || outcome.quit) && err == if outcome.err != 0 then outcome.err else old(err)
    {
      hide Flat;
      FlatPush(delivered, content);
      rmsg, delivered := nmsg, delivered + [content];
      if outcome.err != 0 {
        err := outcome.err;
      }
      if outcome.quit {
        eof := true;
      }
    }

    /** msg_parsed */
    method MsgParsed(msg: Msg, mbuf: Mbuf, outcome: Outcome)
      requires Valid() && rmsg == msg && msg.mhdr != [] && mbuf == msg.mhdr[|msg.mhdr| - 1]
      modifies this, msg`mlen, mbuf`last
      ensures Valid() && stream == old(stream) && parses == old(parses)
      ensures eof == (old(eof) || outcome.quit) && err == if outcome.err != 0 then outcome.err else old(err)
      ensures if msg.pos == old(mbuf.last) then rmsg == null
              else rmsg != null && rmsg.mhdr != [] && Unparsed(rmsg) == old(mbuf.last) - msg.pos > 0
      ensures rmsg != null ==> fresh(rmsg) && fresh(rmsg.mhdr) && rmsg.mlen == Unparsed(rmsg)
      ensures msg.Sized() && delivered == old(delivered) + [msg.Content()]
      ensures |msg.Content()| == old(msg.mlen) - (old(mbuf.last) - msg.pos)
    {
      hide Bytes, Flat;
      if msg.pos == mbuf.last {
        assert msg.Content() + [] == msg.Content();
        RecvDone(null, outcome, msg.Content(), []);
      } else {
        var nmsg := msg.SplitOff(mbuf);
        hide Distinct;
        assert nmsg.mhdr == [nmsg.mhdr[0]];
        RecvDone(nmsg, outcome, msg.Content(), nmsg.Content());
      }
    }

    /** What becomes of a message after the parser's verdict, when so many bytes were
        unparsed before: it is complete and what is left is the next message, or it stays
        with its mark moved on. */
    ghost predicate Judged(msg: Msg, parse: Parse, unparsed: int)
      reads `rmsg, `err, rmsg, if rmsg == null then [] else rmsg.mhdr
    {
      && (parse.kind.Ok? <==> rmsg != msg)
      && (parse.kind.Failed? ==> err == EIO)
      && (parse.kind.Again? || parse.kind.Repair? ==> err == 0)
      && (if rmsg == null then unparsed == parse.consumed
          else rmsg.mhdr != [] && Unparsed(rmsg) == unparsed - parse.consumed && (rmsg != msg ==> Unparsed(rmsg) > 0))
    }

    /** The parser has seen everything that is pending, and wants more. */
    ghost predicate Waits(parser: Parser, unparsed: nat)
      requires rmsg != null && parses > 0
      reads `rmsg, `err, `parses, rmsg, rmsg.mhdr
    {
      !parser(parses - 1, unparsed).kind.Ok? && Judged(rmsg, parser(parses - 1, unparsed), unparsed)
    }

    /** What a verdict does to the connection: a complete message, of so many bytes, is
        delivered, and its outcome counts; an error of the parser breaks the connection;
        nothing else changes. */
    ghost predicate Ruled(parse: Parse, o: Outcome, size: int, was: seq<seq<Byte>>, ended: bool)
      reads `delivered, `err, `eof
    {
      match parse.kind
      case Ok => Delivered(was, size) && err == o.err && (eof <==> ended || o.quit)
      case Failed => delivered == was && err == EIO && (eof <==> ended)
      case _ => delivered == was && err == 0 && (eof <==> ended)
    }

    /** One more message, of so many bytes. */
    ghost predicate Delivered(was: seq<seq<Byte>>, size: int)
      reads `delivered
    {
      |delivered| == |was| + 1 && delivered[..|was|] == was && |delivered[|was|]| == size
    }

    lemma Verdict(msg: Msg, parser: Parser, unparsed: nat)
      requires parses > 0 && Judged(msg, parser(parses - 1, unparsed), unparsed) && Contract(parser)
      ensures rmsg != null && rmsg != msg ==>
        var parse := parser(parses - 1, unparsed);
        parse.kind.Ok? && 0 < Unparsed(rmsg) == unparsed - parse.consumed < unparsed
      ensures rmsg != null ==> rmsg.mhdr != []
      ensures rmsg == msg ==> Waits(parser, unparsed)
    {
    }

    method NothingToParse(msg: Msg, o: Outcome)
      requires Valid() && rmsg == msg && err == 0 && msg.mlen == 0
      modifies this
      ensures Valid() && stream == old(stream) && parses == old(parses)
      ensures rmsg == null && msg.Valid() && msg.Content() == []
      ensures delivered == old(delivered) + [[]] && Ruled(Parse(Ok, 0), o, 0, old(delivered), old(eof))
    {
      hide Bytes, Flat, Distinct;
      RecvDone(null, o, [], []);
    }

    /** What follows from a verdict on a message of the given length, when so many bytes were
        unparsed before it; the mark has been moved on. */
    method Decide(msg: Msg, mbuf: Mbuf, parse: Parse, o: Outcome, ghost unparsed: nat)
      requires Valid() && rmsg == msg && err == 0 && msg.mhdr != [] && mbuf == msg.mhdr[|msg.mhdr| - 1]
      requires unparsed == Unparsed(msg) + parse.consumed
      modifies this, msg, mbuf`last
      ensures Valid() && stream == old(stream) && parses == old(parses) && msg.Valid()
      ensures delivered == old(delivered) || delivered == old(delivered) + [msg.Content()]
      ensures Judged(msg, parse, unparsed)
      ensures Ruled(parse, o, old(msg.mlen) - (unparsed - parse.consumed), old(delivered), old(eof))
      ensures rmsg != null && rmsg != msg ==> fresh(rmsg) && fresh(rmsg.mhdr) && rmsg.mlen == Unparsed(rmsg)
    {
      hide Bytes, Flat, Distinct;
      match parse.kind {
        case Ok => MsgParsed(msg, mbuf, o);
        case Repair => msg.Repair(mbuf);
        case Again =>
        case Failed => err := EIO;
      }
    }

    /** msg_parse: one call of the parser and what follows from its verdict. A message
        without bytes is complete. */
    method MsgParse(msg: Msg, parser: Parser, outcome: nat -> Outcome) returns (ok: bool)
      requires Valid() && rmsg == msg && err == 0 && Contract(parser) && msg.mhdr != []
      modifies this, msg, msg.mhdr`last
      ensures Valid() && stream == old(stream) && (ok <==> err == 0)
      ensures msg.Valid() && parses == old(parses) + if old(msg.mlen) == 0 then 0 else 1
      ensures old(msg.mlen) == 0 ==>
        rmsg == null && Ruled(Parse(Ok, 0), outcome(old(parses)), 0, old(delivered), old(eof))
      ensures old(msg.mlen) > 0 ==>
        var unparsed := old(Unparsed(msg));
        var parse := parser(old(parses), unparsed);
        && Judged(msg, parse, unparsed)
        && Ruled(parse, outcome(parses), old(msg.mlen) - (unparsed - parse.consumed), old(delivered), old(eof))
      ensures rmsg != null && rmsg != msg ==> fresh(rmsg) && fresh(rmsg.mhdr) && rmsg.mlen == Unparsed(rmsg)
    {
      hide Bytes, Flat, Distinct;
      if msg.mlen == 0 {
        NothingToParse(msg, outcome(parses));
        return err == 0;
      }
      var mbuf := msg.mhdr[|msg.mhdr| - 1];
      ghost var unparsed := Unparsed(msg);
      var parse := parser(parses, mbuf.last - msg.pos);
      parses := parses + 1;
      msg.pos := msg.pos + parse.consumed;
      Decide(msg, mbuf, parse, outcome(parses), unparsed);
      ok := err == 0;
    }

    /** The body of the parse loop: the message that the parser sees next, if any. When the
        stream has ended there is none, and what is left is dropped. */
    method ParseNext(msg: Msg, parser: Parser, outcome: nat -> Outcome) returns (ok: bool, nmsg: Msg?)
      requires Valid() && rmsg == msg && err == 0 && Contract(parser) && msg.mhdr != [] && Unparsed(msg) >= 0
      modifies this, msg, msg.mhdr`last
      ensures Valid() && stream == old(stream) && (ok <==> err == 0)
      ensures parses == old(parses) + if old(msg.mlen) == 0 then 0 else 1
      ensures old(msg.mlen) == 0 ==>
        rmsg == null && Ruled(Parse(Ok, 0), outcome(old(parses)), 0, old(delivered), old(eof))
      ensures old(msg.mlen) > 0 ==>
        var unparsed := old(Unparsed(msg));
        var parse := parser(old(parses), unparsed);
        && Ruled(parse, outcome(parses), old(msg.mlen) - (unparsed - parse.consumed), old(delivered), old(eof))
        && (nmsg != null && nmsg != msg ==> parse.kind.Ok? && Unparsed(nmsg) == unparsed - parse.consumed)
      ensures ok ==> nmsg == rmsg && (eof ==> rmsg == null)
      ensures ok && nmsg != null && nmsg != msg ==>
        && nmsg.mhdr != [] && 0 < nmsg.mlen == Unparsed(nmsg) < old(Unparsed(msg))
        && fresh(nmsg) && fresh(nmsg.mhdr)
      ensures ok && (nmsg == null || nmsg == msg) && rmsg != null ==> parses > 0 && Waits(parser, old(Unparsed(msg)))
    {
      hide Bytes, Flat, Distinct, Judged, Waits, Sound, Ruled;
      ghost var unparsed, k := Unparsed(msg), parses;
      ok := MsgParse(msg, parser, outcome);
      if !ok {
        return ok, null;
      }
      if rmsg != null {
        Verdict(msg, parser, unparsed);
      }
      nmsg := RecvNext(false);
    }

    /** How many bytes of the last mbuf the parser has still to see; none of one that is full. */
    ghost function Left(msg: Msg): int
      reads msg, msg.mhdr, set m | m in msg.mhdr :: m.data
    {
      if msg.mhdr == [] || msg.mhdr[|msg.mhdr| - 1].Full() then 0 else Unparsed(msg)
    }

    /** The mbuf the next bytes go to. */
    method Room(msg: Msg) returns (mbuf: Mbuf)
      requires Valid() && rmsg == msg
      modifies msg`mhdr, msg`pos
      ensures Valid() && msg.mhdr != [] && mbuf == msg.mhdr[|msg.mhdr| - 1] && mbuf.Size() > 0
      ensures msg.mhdr == old(msg.mhdr) || (msg.mhdr == old(msg.mhdr) + [mbuf] && fresh(mbuf) && fresh(mbuf.data))
      ensures mbuf.Valid() && Unparsed(msg) == old(Left(msg)) >= 0
    {
      hide Bytes, Flat;
      if msg.mhdr == [] || msg.mhdr[|msg.mhdr| - 1].Full() {
        mbuf := new Mbuf(size);
        msg.Insert(mbuf);
        msg.pos := mbuf.pos;
      } else {
        mbuf := msg.mhdr[|msg.mhdr| - 1];
      }
    }

    /** The bytes read go to the mbuf; no bytes are the end of the stream. */
    method Store(msg: Msg, mbuf: Mbuf, bytes: seq<Byte>)
      requires Valid() && rmsg == msg && !eof && msg.mhdr != [] && mbuf == msg.mhdr[|msg.mhdr| - 1]
      requires |bytes| <= mbuf.Size()
      modifies this, msg`mlen, mbuf`last, mbuf.data
      ensures Valid() && rmsg == msg && stream == old(stream) + bytes && err == old(err) && (eof <==> bytes == [])
      ensures delivered == old(delivered) && parses == old(parses) && msg.mlen == old(msg.mlen) + |bytes|
      ensures Unparsed(msg) == old(Unparsed(msg)) + |bytes|
    {
      hide Bytes, Flat, Distinct;
      msg.Fill(mbuf, bytes);
      stream := stream + bytes;
      eof := bytes == [];
    }

    /** The calls of the parser in one pass, from its k-th on: what they found unparsed. All
        but the last completed a message and left bytes for the next one. */
    static ghost predicate Calls(parser: Parser, outcome: nat -> Outcome, k: nat, seen: seq<nat>) {
      forall i :: 0 <= i < |seen| - 1 ==> Passed(parser, outcome, k + i, seen[i], seen[i + 1])
    }

    /** A call that completed a message, of which nothing but the rest of the bytes comes. */
    static ghost predicate Passed(parser: Parser, outcome: nat -> Outcome, k: nat, unparsed: nat, rest: nat) {
      var parse := parser(k, unparsed);
      parse.kind.Ok? && rest == unparsed - parse.consumed && outcome(k + 1) == Outcome(0, false)
    }

    /** The messages these calls completed have the sizes the parser gave them; the first
        began with bytes that were seen before. */
    static ghost predicate Sizes(parser: Parser, k: nat, seen: seq<nat>, total: int, msgs: seq<seq<Byte>>) {
      && |msgs| <= |seen|
      && forall i :: 0 <= i < |msgs| ==>
           |msgs[i]| == (if i == 0 then total - seen[0] else 0) + parser(k + i, seen[i]).consumed
    }

    /** How the last call of the parser in a pass leaves the connection: with one more message
        and its outcome, with an error, or with a message that waits. */
    ghost predicate Ends(parse: Parse, o: Outcome, ended: bool)
      reads `err, `eof
    {
      && err == (if parse.kind.Failed? then EIO else if parse.kind.Ok? then o.err else 0)
      && (eof <==> ended || (parse.kind.Ok? && o.quit))
    }

    /** The parse loop: as many messages as the bytes make. */
    method ParseAll(msg: Msg, parser: Parser, outcome: nat -> Outcome) returns (ok: bool, ghost seen: seq<nat>)
      requires Valid() && rmsg == msg && err == 0 && Contract(parser) && msg.mhdr != [] && Unparsed(msg) >= 0
      requires eof || msg.mlen > 0
      modifies this, msg, msg.mhdr`last
      ensures Valid() && stream == old(stream) && (ok <==> err == 0) && old(delivered) <= delivered
      ensures ok && eof ==> rmsg == null
      ensures parses == old(parses) + |seen| && Calls(parser, outcome, old(parses), seen)
      ensures seen == [] <==> old(msg.mlen) == 0
      ensures seen == [] ==> Ruled(Parse(Ok, 0), outcome(parses), 0, old(delivered), old(eof)) && rmsg == null
      ensures seen != [] ==>
        && seen[0] == old(Unparsed(msg))
        && var parse := parser(parses - 1, seen[|seen| - 1]);
           && Ends(parse, outcome(parses), old(eof))
           && |delivered| == |old(delivered)| + |seen| - (if parse.kind.Ok? then 0 else 1)
           && Sizes(parser, old(parses), seen, old(msg.mlen), delivered[|old(delivered)|..])
           && (ok && rmsg != null ==> Waits(parser, seen[|seen| - 1]))
    {
      hide Valid, Conserved, Bytes, Flat, Distinct, Judged, Waits, Calls, Sizes, Sound, Underway;
      seen := [];
      var cur: Msg := msg;
      ghost var k, n, total, first, ended := parses, |delivered|, msg.mlen, Unparsed(msg), eof;
      FirstCall(parser, outcome, k, first, total, delivered[n..]);
      while true
        invariant Valid() && rmsg == cur && cur.mhdr != [] && err == 0 && Unparsed(cur) >= 0
        invariant stream == old(stream) && old(delivered) <= delivered && |delivered| == n + |seen|
        invariant parses == k + |seen| && eof == ended && (seen != [] ==> !ended && total > 0)
        invariant cur.mlen == (if seen == [] then total else Unparsed(cur)) && (seen != [] ==> cur.mlen > 0)
        invariant Underway(parser, outcome, k, seen, Unparsed(cur), first, total, delivered[n..])
        invariant (cur == msg && cur.mhdr == old(msg.mhdr)) || (fresh(cur) && fresh(cur.mhdr))
        decreases Unparsed(cur)
      {
        ghost var unparsed, empty, was := Unparsed(cur), cur.mlen == 0, delivered;
        var nmsg;
        ok, nmsg := ParseNext(cur, parser, outcome);
        if !empty {
          Reckon(parser, outcome, k, seen, unparsed, first, total, was[n..], delivered[n..]);
          seen := seen + [unparsed];
        }
        if !ok {
          return;
        }
        if nmsg == null || nmsg == cur {
          return true, seen;
        }
        NextCall(parser, outcome, k, seen, Unparsed(nmsg), first, total, delivered[n..]);
        cur := nmsg;
      }
    }

    /** msg_recv_chain: one read and then as many messages as the bytes make. */
    method RecvChain(msg: Msg, recv: nat -> Recv, parser: Parser, outcome: nat -> Outcome)
      returns (ok: bool, asked: nat, ghost seen: seq<nat>)
      requires Valid() && rmsg == msg && !eof && err == 0 && Contract(parser)
      requires forall k :: recv(k).Data? ==> |recv(k).bytes| <= k
      modifies this, msg, msg.mhdr, set m | m in msg.mhdr :: m.data
      ensures Valid() && asked > 0 && (ok <==> err == 0) && old(delivered) <= delivered
      ensures stream == old(stream) + if recv(asked).Data? then recv(asked).bytes else []
      ensures !recv(asked).Data? ==>
        rmsg == msg && delivered == old(delivered) && !eof && err == if recv(asked).Broken? then EIO else 0
      ensures recv(asked).Data? && ok && eof ==> rmsg == null
      ensures recv(asked).Data? ==> parses == old(parses) + |seen| && Calls(parser, outcome, old(parses), seen)
      ensures recv(asked).Data? && seen == [] ==>
        && old(msg.mlen) == |recv(asked).bytes| == 0 && eof && rmsg == null && err == outcome(parses).err
        && delivered == old(delivered) + [[]]
      ensures recv(asked).Data? && seen != [] ==>
        && seen[0] == |recv(asked).bytes| + old(Left(msg))
        && var unparsed := seen[|seen| - 1];
           var parse, o := parser(parses - 1, unparsed), outcome(parses);
           && err == (if parse.kind.Failed? then EIO else if parse.kind.Ok? then o.err else 0)
           && (eof <==> recv(asked).bytes == [] || (parse.kind.Ok? && o.quit))
           && |delivered| == |old(delivered)| + |seen| - (if parse.kind.Ok? then 0 else 1)
           && Sizes(parser, old(parses), seen, old(msg.mlen) + |recv(asked).bytes|, delivered[|old(delivered)|..])
           && (ok && rmsg != null ==> Waits(parser, unparsed))
      ensures
        (forall k :: outcome(k).err == 0) && (forall k, u :: !parser(k, u).kind.Failed?) && !recv(asked).Broken? ==> ok
    {
      hide Valid, Conserved, Bytes, Flat, Distinct, Judged, Waits, Calls, Sizes, Sound;
      var mbuf := Room(msg);
      asked := mbuf.Size();
      match recv(asked) {
        case NotReady => return true, asked, [];
        case Broken => err := EIO; return false, asked, [];
        case Data(bytes) => Store(msg, mbuf, bytes);
      }
      ok, seen := ParseAll(msg, parser, outcome);
      assert seen == [] ==> delivered == old(delivered) + [[]];
    }

    /** What is known before one more call of the parser. */
    static ghost predicate Underway(parser: Parser, outcome: nat -> Outcome, k: nat, seen: seq<nat>, unparsed: nat,
                                    first: nat, total: int, msgs: seq<seq<Byte>>)
    {
      && Calls(parser, outcome, k, seen + [unparsed]) && (seen + [unparsed])[0] == first
      && |msgs| == |seen| && Sizes(parser, k, seen, total, msgs)
    }

    static lemma FirstCall(parser: Parser, outcome: nat -> Outcome, k: nat, unparsed: nat, total: int,
                           msgs: seq<seq<Byte>>)
      requires msgs == []
      ensures Calls(parser, outcome, k, []) && Underway(parser, outcome, k, [], unparsed, unparsed, total, msgs)
    {
    }

    static lemma NextCall(parser: Parser, outcome: nat -> Outcome, k: nat, seen: seq<nat>, unparsed: nat,
                          first: nat, total: int, msgs: seq<seq<Byte>>)
      requires seen != [] && seen[0] == first && Calls(parser, outcome, k, seen)
      requires Passed(parser, outcome, k + |seen| - 1, seen[|seen| - 1], unparsed)
      requires |msgs| == |seen| && Sizes(parser, k, seen, total, msgs)
      ensures Underway(parser, outcome, k, seen, unparsed, first, total, msgs)
    {
      hide Sizes;
      var now := seen + [unparsed];
      forall i | 0 <= i < |now| - 1 ensures Passed(parser, outcome, k + i, now[i], now[i + 1]) {
        assert now[i] == seen[i];
        if i + 1 < |seen| {
          assert Passed(parser, outcome, k + i, seen[i], seen[i + 1]);
        }
      }
    }

    /** The verdict adds a message to those completed, or none. */
    static lemma Reckon(parser: Parser, outcome: nat -> Outcome, k: nat, seen: seq<nat>, unparsed: nat,
                        first: nat, total: int, was: seq<seq<Byte>>, msgs: seq<seq<Byte>>)
      requires Underway(parser, outcome, k, seen, unparsed, first, total, was)
      requires
        var parse := parser(k + |seen|, unparsed);
        if parse.kind.Ok? then
          && |msgs| == |was| + 1 && msgs[..|was|] == was
          && |msgs[|was|]| == (if seen == [] then total - unparsed else 0) + parse.consumed
        else msgs == was
      ensures
        var now := seen + [unparsed];
        now[0] == first && Calls(parser, outcome, k, now) && Sizes(parser, k, now, total, msgs)
    {
      hide Calls;
      var now := seen + [unparsed];
      forall i | 0 <= i < |msgs|
        ensures |msgs[i]| == (if i == 0 then total - now[0] else 0) + parser(k + i, now[i]).consumed
      {
        if i < |was| {
          assert msgs[i] == was[i] && now[i] == seen[i] && now[0] == seen[0];
        }
      }
    }
  }
}
