/** What has become of every request that ever entered the queue of a client connection:
    one entry each, in the order of arrival. */
module Ledger {
  import opened ByteQueue
  import opened Fragments
  import opened Queues

  /** It waits in the queue; its response was written completely; or it left the queue for
      the error response of another member of its group, whose entry is at the place into. */
  datatype Fate = Waiting | Answered | Collapsed(into: nat)

  /** Written for the request: what belongs to responses that were replaced, and a part of
      the response it has now. Was that made for an error? */
  datatype Entry = Entry(req: Req, spoilt: seq<Byte>, part: seq<Byte>, fate: Fate, errored: bool)

  function New(r: Req): Entry {
    Entry(r, [], [], Waiting, false)
  }

  function Wrote(e: Entry): seq<Byte> {
    e.spoilt + e.part
  }

  // ---------- the queue ----------

  /** The requests that wait. */
  ghost function Waiters(l: seq<Entry>): seq<Req> {
    if l == [] then []
    else
      var k := |l| - 1;
      Waiters(l[..k]) + if l[k].fate.Waiting? then [l[k].req] else []
  }

  lemma WaitersPush(l: seq<Entry>, e: Entry)
    ensures Waiters(l + [e]) == Waiters(l) + if e.fate.Waiting? then [e.req] else []
  {
    assert (l + [e])[..|l|] == l;
  }

  /** Where the i-th request of the queue stands in the ledger. */
  ghost function Place(l: seq<Entry>, i: nat): (w: nat)
    requires i < |Waiters(l)|
    ensures w < |l| && l[w].fate.Waiting? && l[w].req == Waiters(l)[i] && Waiters(l[..w]) == Waiters(l)[..i]
  {
    var k := |l| - 1;
    if i == |Waiters(l[..k])| then k
    else
      var w := Place(l[..k], i);
      assert l[..k][..w] == l[..w];
      w
  }

  lemma {:induction false} WaitersMore(l: seq<Entry>, a: nat, b: nat)
    requires a <= b <= |l|
    ensures Waiters(l[..a]) <= Waiters(l[..b])
    decreases b
  {
    if a < b {
      WaitersMore(l, a, b - 1);
      assert l[..b][..b - 1] == l[..b - 1];
    }
  }

  lemma Ahead(l: seq<Entry>, a: nat, b: nat)
    requires a < b <= |l| && l[a].fate.Waiting?
    ensures |Waiters(l[..a])| < |Waiters(l[..b])|
  {
    WaitersMore(l, a + 1, b);
    assert l[..a + 1][..a] == l[..a];
  }

  /** Every entry that waits is in the queue. */
  lemma WaitsAt(l: seq<Entry>, w: nat) returns (i: nat)
    requires w < |l| && l[w].fate.Waiting?
    ensures i < |Waiters(l)| && Place(l, i) == w
  {
    hide Waiters;
    i := |Waiters(l[..w])|;
    Ahead(l, w, |l|);
    assert l[..|l|] == l;
    var p := Place(l, i);
    if p < w {
      Ahead(l, p, w);
    } else if w < p {
      Ahead(l, w, p);
    }
  }

  lemma PlacesRise(l: seq<Entry>, i: nat, j: nat)
    requires i < j < |Waiters(l)|
    ensures Place(l, i) < Place(l, j)
  {
    hide Waiters;
    if Place(l, j) < Place(l, i) {
      Ahead(l, Place(l, j), Place(l, i));
    }
  }

  /** The same requests, of which those that are gone wait no more. */
  ghost predicate Released(l: seq<Entry>, l': seq<Entry>, gone: set<Req>) {
    && |l| == |l'|
    && forall i :: 0 <= i < |l| ==>
         && l'[i].req == l[i].req
         && (l'[i].fate.Waiting? <==> l[i].fate.Waiting? && l[i].req !in gone)
  }

  lemma {:induction false} WaitersReleased(l: seq<Entry>, l': seq<Entry>, gone: set<Req>)
    requires Released(l, l', gone)
    ensures Waiters(l') == Less(Waiters(l), gone)
    decreases |l|
  {
    hide Less;
    if l == [] {
      LessNone([], gone);
    } else {
      var k := |l| - 1;
      WaitersReleased(l[..k], l'[..k], gone);
      assert l[k].fate.Waiting? || Waiters(l) == Waiters(l[..k]);
      LessPush(Waiters(l[..k]), l[k].req, gone);
    }
  }

  // ---------- the wire ----------

  /** Everything that was written. */
  ghost function Text(l: seq<Entry>): seq<Byte> {
    if l == [] then [] else Text(l[..|l| - 1]) + Wrote(l[|l| - 1])
  }

  lemma TextPush(l: seq<Entry>, e: Entry)
    ensures Text(l + [e]) == Text(l) + Wrote(e)
  {
    assert (l + [e])[..|l|] == l;
  }

  lemma {:induction false} TextSame(l: seq<Entry>, l': seq<Entry>)
    requires |l| == |l'| && forall i :: 0 <= i < |l| ==> Wrote(l[i]) == Wrote(l'[i])
    ensures Text(l) == Text(l')
    decreases |l|
  {
    hide Wrote;
    if l != [] {
      TextSame(l[..|l| - 1], l'[..|l| - 1]);
    }
  }

  /** What is written for an entry with none behind it comes last. */
  lemma {:induction false} TextGrows(l: seq<Entry>, w: nat, e: Entry, bytes: seq<Byte>)
    requires w < |l| && Wrote(e) == Wrote(l[w]) + bytes && forall k :: w < k < |l| ==> Wrote(l[k]) == []
    ensures Text(l[w := e]) == Text(l) + bytes
    decreases |l|
  {
    hide Wrote;
    var k := |l| - 1;
    if w < k {
      TextGrows(l[..k], w, e, bytes);
      assert l[w := e][..k] == l[..k][w := e];
    } else {
      assert l[w := e][..k] == l[..k];
    }
  }

  // ---------- what is always true of it ----------

  ghost predicate Rises(l: seq<Entry>) {
    forall i, j :: 0 <= i < j < |l| ==> l[i].req.number < l[j].req.number
  }

  /** Nothing was written behind a request that waits. */
  ghost predicate Quiet(l: seq<Entry>) {
    forall i, j :: 0 <= i < j < |l| && l[i].fate.Waiting? ==> Wrote(l[j]) == []
  }

  /** Who left without a response has the error response of its group, and nothing else is
      ever written twice. */
  ghost predicate Excused(l: seq<Entry>) {
    && (forall i :: 0 <= i < |l| && l[i].fate.Collapsed? ==> Stands(l, i, l[i].fate.into))
    && (forall i :: 0 <= i < |l| && l[i].spoilt != [] ==> l[i].errored)
  }

  ghost predicate Stands(l: seq<Entry>, i: nat, into: nat)
    requires i < |l|
  {
    into < i && l[into].errored && l[into].req.id == l[i].req.id != 0 && Wrote(l[i]) == []
  }

  /** The error response that stands for a request that left without one. */
  lemma {:induction false} Root(l: seq<Entry>, i: nat) returns (j: nat)
    requires Excused(l) && i < |l| && l[i].fate.Collapsed?
    ensures j < i && l[j].errored && !l[j].fate.Collapsed? && l[j].req.id == l[i].req.id != 0
  {
    hide Wrote;
    j := l[i].fate.into;
    assert Stands(l, i, j);
    if l[j].fate.Collapsed? {
      j := Root(l, j);
    }
  }

  ghost predicate Sound(l: seq<Entry>) {
    Rises(l) && Quiet(l) && Excused(l)
  }

  lemma SoundPush(l: seq<Entry>, r: Req)
    requires Sound(l) && forall e :: e in l ==> e.req.number < r.number
    ensures Sound(l + [New(r)]) && Waiters(l + [New(r)]) == Waiters(l) + [r] && Text(l + [New(r)]) == Text(l)
  {
    hide Waiters, Text;
    WaitersPush(l, New(r));
    TextPush(l, New(r));
    ExcusedStill(l, l + [New(r)]);
  }

  /** Entries that left for others keep their excuse. */
  lemma ExcusedStill(l: seq<Entry>, l': seq<Entry>)
    requires Excused(l) && |l| <= |l'|
    requires forall i :: 0 <= i < |l| ==>
      && l'[i].req == l[i].req && (l'[i].fate.Collapsed? <==> l[i].fate.Collapsed?)
      && (l[i].fate.Collapsed? ==> l'[i] == l[i]) && (l[i].errored ==> l'[i].errored)
      && (l'[i].spoilt != [] ==> l'[i].errored)
    requires forall i :: |l| <= i < |l'| ==> !l'[i].fate.Collapsed? && l'[i].spoilt == []
    ensures Excused(l')
  {
    hide Wrote;
    forall i | 0 <= i < |l'| && l'[i].fate.Collapsed? ensures Stands(l', i, l'[i].fate.into) {
      assert Stands(l, i, l[i].fate.into);
    }
  }

  // ---------- the ledger and the requests ----------

  /** What an entry says about its request now. */
  ghost predicate Accurate(e: Entry)
    reads e.req`reply, e.req`unsent, e.req`done
  {
    match e.fate
    case Waiting =>
      Split(e.req.reply, e.req.unsent) && e.part == Sent(e.req.reply, e.req.unsent) && (!e.req.done ==> e.part == [])
    case Answered => e.part == e.req.reply && e.req.unsent == []
    case Collapsed(_) => true
  }

  ghost function Reqs(l: seq<Entry>): (rs: set<Req>)
    ensures forall i :: 0 <= i < |l| ==> l[i].req in rs
  {
    set e | e in l :: e.req
  }

  /** The response to a request, after what was spoilt; no response if it left for the
      error response of another. */
  ghost function Owed(e: Entry): seq<Byte>
    reads e.req`reply
  {
    e.spoilt + if e.fate.Collapsed? then [] else e.req.reply
  }

  /** What is to be written for all the requests, in the order of arrival. */
  ghost function Due(l: seq<Entry>): seq<Byte>
    reads Reqs(l)`reply
  {
    if l == [] then []
    else
      var e := l[|l| - 1];
      assert Reqs(l[..|l| - 1]) <= Reqs(l);
      Due(l[..|l| - 1]) + Owed(e)
  }

  /** The responses alone. */
  ghost function Responses(l: seq<Entry>): seq<Byte>
    reads Reqs(l)`reply
  {
    if l == [] then []
    else
      var e := l[|l| - 1];
      assert Reqs(l[..|l| - 1]) <= Reqs(l);
      Responses(l[..|l| - 1]) + if e.fate.Collapsed? then [] else e.req.reply
  }

  lemma {:induction false} DuePlain(l: seq<Entry>)
    requires forall i :: 0 <= i < |l| ==> l[i].spoilt == []
    ensures Due(l) == Responses(l)
  {
    if l != [] {
      DuePlain(l[..|l| - 1]);
    }
  }

  lemma EntryDue(l: seq<Entry>, i: nat)
    requires i < |l| && Excused(l) && Accurate(l[i])
    ensures Wrote(l[i]) <= Owed(l[i]) && (!l[i].fate.Waiting? ==> Wrote(l[i]) == Owed(l[i]))
  {
    if l[i].fate.Collapsed? {
      assert Stands(l, i, l[i].fate.into);
    }
  }

  lemma Beginning(a: seq<Byte>, b: seq<Byte>, c: seq<Byte>, d: seq<Byte>)
    requires a <= b && c <= d && (a == b || c == [])
    ensures a + c <= b + d
  {
  }

  /** What was written is a beginning of it, and all of it up to the first request that
      waits. */
  lemma {:induction false} TextDue(l: seq<Entry>, n: nat)
    requires Quiet(l) && Excused(l) && n <= |l| && forall i :: 0 <= i < n ==> Accurate(l[i])
    ensures Text(l[..n]) <= Due(l[..n])
    ensures (forall i :: 0 <= i < n ==> !l[i].fate.Waiting?) ==> Text(l[..n]) == Due(l[..n])
  {
    if n > 0 {
      TextDue(l, n - 1);
      assert l[..n][..n - 1] == l[..n - 1];
      EntryDue(l, n - 1);
      var waiting := exists i :: 0 <= i < n - 1 && l[i].fate.Waiting?;
      assert waiting ==> Wrote(l[n - 1]) == [];
      hide Wrote, Accurate, Excused, Quiet;
      Beginning(Text(l[..n - 1]), Due(l[..n - 1]), Wrote(l[n - 1]), Owed(l[n - 1]));
    }
  }

  // ---------- a response is written ----------

  /** The first request of the queue gets more of its response. */
  lemma SoundMore(l: seq<Entry>, bytes: seq<Byte>)
    requires Sound(l) && Waiters(l) != []
    ensures
      var w := Place(l, 0);
      var l' := l[w := l[w].(part := l[w].part + bytes)];
      Sound(l') && Waiters(l') == Waiters(l) && Text(l') == Text(l) + bytes
  {
    hide Waiters, Text;
    var w := Place(l, 0);
    var e := l[w].(part := l[w].part + bytes);
    var l' := l[w := e];
    FirstWaits(l);
    assert Wrote(e) == Wrote(l[w]) + bytes;
    hide Wrote;
    TextGrows(l, w, e, bytes);
    WaitersReleased(l, l', {});
    LessNone(Waiters(l), {});
    ExcusedStill(l, l');
  }

  lemma FirstWaits(l: seq<Entry>)
    requires Waiters(l) != []
    ensures forall k :: 0 <= k < Place(l, 0) ==> !l[k].fate.Waiting?
  {
    hide Waiters;
    forall k | 0 <= k < Place(l, 0) ensures !l[k].fate.Waiting? {
      if l[k].fate.Waiting? {
        var i := WaitsAt(l, k);
        if i > 0 {
          PlacesRise(l, 0, i);
        }
      }
    }
  }

  /** Some requests leave the queue with their responses; the rest is as it was, except
      for how much was written. */
  ghost predicate Settled(l: seq<Entry>, l': seq<Entry>, done: set<Req>) {
    && |l| == |l'|
    && forall i :: 0 <= i < |l| ==>
         && l'[i].req == l[i].req && l'[i].spoilt == l[i].spoilt && l'[i].errored == l[i].errored
         && l'[i].fate == if l[i].fate.Waiting? && l[i].req in done then Answered else l[i].fate
  }

  lemma WaitersSettled(l: seq<Entry>, l': seq<Entry>, done: set<Req>)
    requires Settled(l, l', done)
    ensures Waiters(l') == Less(Waiters(l), done)
  {
    WaitersReleased(l, l', done);
  }

  lemma SettledMore(l: seq<Entry>, l1: seq<Entry>, l2: seq<Entry>, done: set<Req>, more: set<Req>)
    requires Settled(l, l1, done) && Settled(l1, l2, more)
    ensures Settled(l, l2, done + more)
  {
  }

  /** The i-th request of the queue leaves. */
  lemma SoundLeave(l: seq<Entry>, i: nat)
    requires Sound(l) && i < |Waiters(l)|
    ensures
      var w := Place(l, i);
      var l' := l[w := l[w].(fate := Answered)];
      && Sound(l') && Waiters(l') == Dropped(Waiters(l), i) && Text(l') == Text(l)
      && Settled(l, l', {Waiters(l)[i]})
  {
    hide Waiters, Text, Dropped;
    var w := Place(l, i);
    var l' := l[w := l[w].(fate := Answered)];
    TextSame(l, l');
    hide Wrote;
    WaitersDropped(l, i, l[w].(fate := Answered));
    ExcusedStill(l, l');
  }

  lemma {:induction false} WaitersConcat(l: seq<Entry>, m: seq<Entry>)
    ensures Waiters(l + m) == Waiters(l) + Waiters(m)
  {
    if m == [] {
      assert l + m == l;
    } else {
      var k := |m| - 1;
      WaitersConcat(l, m[..k]);
      assert (l + m)[..|l| + k] == l + m[..k];
      var e := m[k];
      assert Waiters(l + m) == Waiters(l + m[..k]) + if e.fate.Waiting? then [e.req] else [];
      hide Waiters;
    }
  }

  lemma WaitersOne(e: Entry)
    ensures Waiters([e]) == if e.fate.Waiting? then [e.req] else []
  {
    assert [e][..0] == [];
  }

  lemma WaitersDropped(l: seq<Entry>, i: nat, e: Entry)
    requires i < |Waiters(l)| && !e.fate.Waiting?
    ensures Waiters(l[Place(l, i) := e]) == Dropped(Waiters(l), i)
  {
    hide Waiters;
    var w := Place(l, i);
    var front, back := l[..w], l[w + 1..];
    assert l == front + [l[w]] + back && l[w := e] == front + [e] + back;
    WaitersOne(e);
    WaitersOne(l[w]);
    WaitersConcat(front, [l[w]]);
    WaitersConcat(front + [l[w]], back);
    WaitersConcat(front, [e]);
    WaitersConcat(front + [e], back);
  }

  // ---------- an error response is made ----------

  /** The response that the entry had is replaced. */
  function Replaced(e: Entry): Entry {
    e.(spoilt := Wrote(e), part := [], errored := true)
  }

  /** The entry at place w gets an error response, and its group leaves for it. */
  ghost function Remake(l: seq<Entry>, w: nat): (r: seq<Entry>)
    requires w < |l|
    ensures |r| == |l| && forall i :: 0 <= i < |l| ==> r[i] == Remade(l[i], i, w, l[w].req)
  {
    seq(|l|, i requires 0 <= i < |l| => Remade(l[i], i, w, l[w].req))
  }

  ghost function Remade(e: Entry, i: nat, w: nat, r: Req): Entry {
    if i == w then Replaced(e)
    else if e.fate.Waiting? && e.req.id == r.id != 0 then e.(fate := Collapsed(w))
    else e
  }

  /** A request stays when those in bad get error responses: it is one of them, or none of
      its group is. */
  ghost predicate Spared(r: Req, bad: set<Req>) {
    r in bad || r.id == 0 || forall b :: b in bad ==> b.id != r.id
  }

  /** Those that leave for the error responses of others. */
  ghost function Absorbed(q: seq<Req>, bad: set<Req>): (gone: set<Req>)
    ensures forall r :: r in gone ==> r in q && !Spared(r, bad)
    ensures forall r :: r in q && !Spared(r, bad) ==> r in gone
  {
    set r | r in q && !Spared(r, bad)
  }

  /** The requests in bad have got error responses. */
  ghost predicate Turned(l: seq<Entry>, l': seq<Entry>, bad: set<Req>) {
    |l| == |l'| && forall i :: 0 <= i < |l| ==> TurnedTo(l[i], l'[i], bad)
  }

  ghost predicate TurnedTo(e: Entry, e': Entry, bad: set<Req>) {
    if e.fate.Waiting? && e.req in bad then e' == Replaced(e)
    else if e.fate.Waiting? && !Spared(e.req, bad) then e'.fate.Collapsed? && e' == e.(fate := e'.fate)
    else e' == e
  }

  /** Only for r was more spoilt, and that is bytes. */
  ghost predicate Spoilt(l: seq<Entry>, l': seq<Entry>, r: Req, bytes: seq<Byte>) {
    |l| == |l'| && forall i :: 0 <= i < |l| ==> l'[i].spoilt == l[i].spoilt + if l[i].req == r then bytes else []
  }

  ghost predicate Unspoilt(l: seq<Entry>, l': seq<Entry>) {
    |l| == |l'| && forall i :: 0 <= i < |l| ==> l'[i].spoilt == l[i].spoilt
  }

  /** Error responses spoil nothing but what was written for the first of the queue. */
  lemma SpoiltFirst(l: seq<Entry>, l': seq<Entry>, bad: set<Req>)
    requires Sound(l) && Turned(l, l', bad)
    ensures Waiters(l) == [] || Waiters(l)[0] !in bad || l[Place(l, 0)].part == [] ==> Unspoilt(l, l')
    ensures Waiters(l) != [] && Waiters(l)[0] in bad ==> Spoilt(l, l', Waiters(l)[0], l[Place(l, 0)].part)
  {
    hide Waiters, Excused;
    forall i | 0 <= i < |l|
      ensures l'[i].spoilt == l[i].spoilt +
        if Waiters(l) != [] && Waiters(l)[0] in bad && i == Place(l, 0) then l[i].part else []
    {
      assert TurnedTo(l[i], l'[i], bad);
      if l[i].fate.Waiting? {
        var k := WaitsAt(l, i);
        if k > 0 {
          PlacesRise(l, 0, k);
          assert Wrote(l[i]) == [];
        }
      }
    }
  }

  lemma SpoiltStill(l: seq<Entry>, between: seq<Entry>, l': seq<Entry>, gone: set<Req>, r: Req, bytes: seq<Byte>)
    requires Spoilt(l, between, r, bytes) && Settled(between, l', gone)
    ensures Spoilt(l, l', r, bytes)
  {
  }

  lemma UnspoiltStill(l: seq<Entry>, between: seq<Entry>, l': seq<Entry>, gone: set<Req>)
    requires Unspoilt(l, between) && Settled(between, l', gone)
    ensures Unspoilt(l, l')
  {
  }

  lemma TurnedNone(l: seq<Entry>)
    ensures Turned(l, l, {})
  {
  }

  lemma WaitersTurned(l: seq<Entry>, l': seq<Entry>, bad: set<Req>)
    requires Turned(l, l', bad)
    ensures Waiters(l') == Less(Waiters(l), Absorbed(Waiters(l), bad))
  {
    var gone := Absorbed(Waiters(l), bad);
    forall i | 0 <= i < |l|
      ensures l'[i].req == l[i].req && (l'[i].fate.Waiting? <==> l[i].fate.Waiting? && l[i].req !in gone)
    {
      assert TurnedTo(l[i], l'[i], bad);
      if l[i].fate.Waiting? {
        var k := WaitsAt(l, i);
      }
    }
    WaitersReleased(l, l', gone);
  }

  lemma TurnedOne(l: seq<Entry>, w: nat)
    requires Rises(l) && w < |l| && l[w].fate.Waiting?
    ensures Turned(l, Remake(l, w), {l[w].req})
  {
    TurnedNone(l);
    TurnedMore(l, l, {}, w);
    assert {} + {l[w].req} == {l[w].req};
  }

  lemma TurnedMore(l: seq<Entry>, l1: seq<Entry>, bad: set<Req>, w: nat)
    requires Rises(l) && Turned(l, l1, bad) && w < |l1| && l1[w].fate.Waiting? && l1[w].req !in bad
    ensures Turned(l, Remake(l1, w), bad + {l1[w].req})
  {
    var b, l2 := l1[w].req, Remake(l1, w);
    assert TurnedTo(l[w], l1[w], bad);
    assert l[w].req == b && Spared(b, bad);
    forall i | 0 <= i < |l| ensures TurnedTo(l[i], l2[i], bad + {b}) {
      assert TurnedTo(l[i], l1[i], bad);
      assert i != w ==> l[i].req != b;
    }
  }

  /** Those of the group all wait behind it. */
  lemma SoundRemake(l: seq<Entry>, w: nat)
    requires Sound(l) && Rises(l) && w < |l| && l[w].fate.Waiting?
    requires forall i :: 0 <= i < w && l[i].fate.Waiting? ==> l[i].req.id != l[w].req.id || l[w].req.id == 0
    ensures Sound(Remake(l, w)) && Text(Remake(l, w)) == Text(l)
    ensures Waiters(Remake(l, w)) == Less(Waiters(l), Absorbed(Waiters(l), {l[w].req}))
  {
    hide *;
    TurnedOne(l, w);
    WaitersTurned(l, Remake(l, w), {l[w].req});
    WroteRemake(l, w);
    TextSame(l, Remake(l, w));
    ExcusedRemake(l, w);
    QuietRemake(l, w);
    SoundIs(Remake(l, w));
  }

  lemma SoundIs(l: seq<Entry>)
    ensures Sound(l) <==> Rises(l) && Quiet(l) && Excused(l)
  {
    hide Rises, Quiet, Excused;
  }

  lemma WroteRemake(l: seq<Entry>, w: nat)
    requires w < |l|
    ensures forall i :: 0 <= i < |l| ==> Wrote(Remake(l, w)[i]) == Wrote(l[i])
  {
    forall i | 0 <= i < |l| ensures Wrote(Remake(l, w)[i]) == Wrote(l[i]) {
      assert Wrote(l[i]) + [] == Wrote(l[i]);
    }
  }

  lemma QuietRemake(l: seq<Entry>, w: nat)
    requires Sound(l) && w < |l|
    ensures Rises(Remake(l, w)) && Quiet(Remake(l, w))
  {
    WroteRemake(l, w);
    hide Wrote, Excused;
  }

  lemma ExcusedRemake(l: seq<Entry>, w: nat)
    requires Sound(l) && w < |l| && l[w].fate.Waiting?
    requires forall i :: 0 <= i < w && l[i].fate.Waiting? ==> l[i].req.id != l[w].req.id || l[w].req.id == 0
    ensures Excused(Remake(l, w))
  {
    var l' := Remake(l, w);
    WroteRemake(l, w);
    hide Wrote, Rises;
    forall i | 0 <= i < |l'| && l'[i].fate.Collapsed? ensures Stands(l', i, l'[i].fate.into) {
      assert l'[i] == Remade(l[i], i, w, l[w].req);
      assert l[i].fate.Collapsed? ==> Stands(l, i, l[i].fate.into);
      assert !l[i].fate.Collapsed? ==> w < i && Wrote(l[i]) == [];
    }
  }
}
