/** Byte strings waiting in a queue, of which a kernel takes the first n bytes, however
    they are divided. */
module ByteQueue {
  import opened Queues

  type Byte = bv8

  /** Byte strings one behind the other. */
  function Flat(was: seq<seq<Byte>>): seq<Byte> {
    if was == [] then [] else Flat(was[..|was| - 1]) + was[|was| - 1]
  }

  lemma FlatPush(was: seq<seq<Byte>>, last: seq<Byte>)
    ensures Flat(was + [last]) == Flat(was) + last
  {
    assert (was + [last])[..|was|] == was;
  }

  lemma FlatStep(was: seq<seq<Byte>>, i: nat)
    requires i < |was|
    ensures Flat(was[..i + 1]) == Flat(was[..i]) + was[i]
  {
    assert was[..i + 1][..i] == was[..i];
  }

  function Min(a: int, b: int): int {
    if a < b then a else b
  }

  /** What each message keeps when the first n bytes of all of them are taken. */
  ghost function Rest(was: seq<seq<Byte>>, n: nat): (r: seq<seq<Byte>>)
    ensures |r| == |was|
  {
    if was == [] then []
    else
      var k := |was| - 1;
      var before := |Flat(was[..k])|;
      Rest(was[..k], n) + [was[k][if n <= before then 0 else Min(n - before, |was[k]|)..]]
  }

  /** Sent plus remaining is the original. */
  lemma {:induction false} RestConserves(was: seq<seq<Byte>>, n: nat)
    ensures n <= |Flat(was)| ==> Flat(was)[..n] + Flat(Rest(was, n)) == Flat(was)
    ensures n >= |Flat(was)| ==> Flat(Rest(was, n)) == []
  {
    if was != [] {
      var k := |was| - 1;
      RestConserves(was[..k], n);
      var before, rest := Flat(was[..k]), Rest(was, n);
      assert rest[..k] == Rest(was[..k], n);
      if n <= |before| {
        assert Flat(was)[..n] == before[..n];
      } else if n <= |Flat(was)| {
        assert Flat(was)[..n] == before + was[k][..n - |before|];
      }
    }
  }

  /** A message behind the n-th byte is left alone, one before it is used up. */
  lemma {:induction false} RestShape(was: seq<seq<Byte>>, n: nat, i: nat)
    requires i < |was|
    ensures Rest(was, n)[i] == was[i][if n <= |Flat(was[..i])| then 0 else Min(n - |Flat(was[..i])|, |was[i]|)..]
  {
    var k := |was| - 1;
    if i < k {
      assert was[..k][..i] == was[..i] && was[..k][..i + 1] == was[..i + 1];
      RestShape(was[..k], n, i);
    } else {
      assert was[..i + 1] == was;
    }
  }

  /** The messages with nothing left, in order. */
  ghost function Finished<T>(msgs: seq<T>, rest: seq<seq<Byte>>): seq<T>
    requires |rest| == |msgs|
  {
    if msgs == [] then []
    else
      var k := |msgs| - 1;
      Finished(msgs[..k], rest[..k]) + if rest[k] == [] then [msgs[k]] else []
  }

  lemma {:induction false} Longer(was: seq<seq<Byte>>, i: nat, k: nat)
    requires i <= k <= |was|
    ensures Flat(was[..i]) <= Flat(was[..k])
  {
    if i < k {
      Longer(was, i, k - 1);
      FlatStep(was, k - 1);
    }
  }

  lemma Behind(was: seq<seq<Byte>>, n: nat, used: nat)
    requires used <= |was| && n <= |Flat(was[..used])|
    ensures Rest(was, n)[used..] == was[used..]
  {
    hide Rest, Flat;
    forall k | used <= k < |was| ensures Rest(was, n)[k] == was[k] {
      RestShape(was, n, k);
      Longer(was, used, k);
    }
  }

  /** How much of n is left for the messages behind the first i. */
  ghost function Left(was: seq<seq<Byte>>, n: nat, i: nat): nat
    requires i <= |was|
  {
    if n <= |Flat(was[..i])| then 0 else n - |Flat(was[..i])|
  }

  /** The first i messages have lost their parts. */
  ghost function Shrunk(was: seq<seq<Byte>>, n: nat, i: nat): (now: seq<seq<Byte>>)
    requires i <= |was|
    ensures |now| == |was|
  {
    Rest(was, n)[..i] + was[i..]
  }

  lemma ShrunkStart(was: seq<seq<Byte>>, n: nat)
    ensures Shrunk(was, n, 0) == was
  {
  }

  lemma ShrunkEnd(was: seq<seq<Byte>>, n: nat, i: nat)
    requires i <= |was| && n <= |Flat(was[..i])|
    ensures Shrunk(was, n, i) == Rest(was, n)
  {
    hide Flat, Rest;
    Behind(was, n, i);
    assert Rest(was, n) == Rest(was, n)[..i] + Rest(was, n)[i..];
  }

  lemma NowStep(was: seq<seq<Byte>>, n: nat, i: nat, now: seq<seq<Byte>>, nsent: nat)
    requires i < |was| && now == Shrunk(was, n, i) && nsent == Left(was, n, i)
    ensures now[i := now[i][Min(nsent, |now[i]|)..]] == Shrunk(was, n, i + 1)
    ensures Left(was, n, i + 1) == if nsent <= |now[i]| then 0 else nsent - |now[i]|
    ensures now[i] == was[i] && (Rest(was, n)[i] == [] <==> |was[i]| <= nsent)
  {
    hide Rest, Flat;
    RestShape(was, n, i);
    FlatStep(was, i);
  }

  /** What has gone when the first i strings have lost their parts. */
  ghost function Taken(was: seq<seq<Byte>>, n: nat, i: nat): seq<Byte>
    requires i <= |was| && n <= |Flat(was)|
  {
    Flat(was)[..n - Left(was, n, i)]
  }

  lemma TakenStart(was: seq<seq<Byte>>, n: nat)
    requires n <= |Flat(was)|
    ensures Left(was, n, 0) == n && Taken(was, n, 0) == []
  {
  }

  lemma TakenEnd(was: seq<seq<Byte>>, n: nat)
    requires n <= |Flat(was)|
    ensures Taken(was, n, |was|) == Flat(was)[..n]
  {
    assert was[..|was|] == was;
  }

  /** What the i-th string loses. */
  lemma TakenStep(was: seq<seq<Byte>>, n: nat, i: nat)
    requires i < |was| && n <= |Flat(was)|
    ensures
      var left := Left(was, n, i);
      var m := Min(left, |was[i]|);
      && Left(was, n, i + 1) == left - m
      && Rest(was, n)[i] == was[i][m..] && (Rest(was, n)[i] == [] <==> |was[i]| <= left)
      && Taken(was, n, i) + was[i][..m] == Taken(was, n, i + 1)
  {
    hide Rest, Flat;
    RestShape(was, n, i);
    FlatStep(was, i);
    Longer(was, i + 1, |was|);
    assert was[..|was|] == was;
    var left := Left(was, n, i);
    if left > 0 {
      var m := Min(left, |was[i]|);
      assert Flat(was[..i]) == Flat(was)[..n - left];
      assert Flat(was)[..n - left + m] == Flat(was[..i + 1])[..n - left + m] == Flat(was[..i]) + was[i][..m];
    }
  }

  /** A text loses the first of nsent bytes, which are left less by that, to the wire. */
  ghost predicate Loses(text: seq<Byte>, nsent: nat, left: nat, text': seq<Byte>, wire: seq<Byte>, wire': seq<Byte>) {
    var sent := Min(nsent, |text|);
    left == nsent - sent && text' == text[sent..] && wire' == wire + text[..sent]
  }

  lemma Lost(was: seq<seq<Byte>>, n: nat, i: nat, left: nat, text': seq<Byte>, wire: seq<Byte>, wire': seq<Byte>)
    requires i < |was| && n <= |Flat(was)|
    requires Loses(was[i], Left(was, n, i), left, text', wire + Taken(was, n, i), wire')
    ensures left == Left(was, n, i + 1) && text' == Rest(was, n)[i] && wire' == wire + Taken(was, n, i + 1)
    ensures Rest(was, n)[i] == [] <==> |was[i]| <= Left(was, n, i)
    ensures left <= Left(was, n, i) && (Rest(was, n)[i] != [] ==> left == 0)
  {
    hide Rest, Left, Taken, Flat;
    TakenStep(was, n, i);
  }

  lemma FinishedStep<T>(msgs: seq<T>, rest: seq<seq<Byte>>, i: nat)
    requires |rest| == |msgs| && i < |msgs|
    ensures Finished(msgs[..i + 1], rest[..i + 1]) ==
            Finished(msgs[..i], rest[..i]) + if rest[i] == [] then [msgs[i]] else []
  {
    assert msgs[..i + 1][..i] == msgs[..i] && rest[..i + 1][..i] == rest[..i];
  }

  // ---------- out of turn ----------

  /** Nothing is taken behind a string that is not used up. */
  lemma RestBehind(was: seq<seq<Byte>>, n: nat, i: nat, j: nat)
    requires i < j < |was| && Rest(was, n)[i] != []
    ensures Rest(was, n)[j] == was[j]
  {
    hide Rest, Flat;
    RestShape(was, n, i);
    RestShape(was, n, j);
    FlatStep(was, i);
    Longer(was, i + 1, j);
  }

  lemma {:induction false} FinishedIn<T>(msgs: seq<T>, rest: seq<seq<Byte>>)
    requires |rest| == |msgs| && NoDup(msgs)
    ensures forall k :: 0 <= k < |msgs| ==> (msgs[k] in Finished(msgs, rest) <==> rest[k] == [])
    ensures forall r :: r in Finished(msgs, rest) ==> r in msgs
  {
    if msgs != [] {
      var k := |msgs| - 1;
      FinishedIn(msgs[..k], rest[..k]);
      assert forall r :: r in msgs[..k] ==> r in msgs && r != msgs[k];
    }
  }

  /** Is a message finished in front of which one is not? */
  ghost predicate Overtakes(rest: seq<seq<Byte>>) {
    exists i, j :: 0 <= i < j < |rest| && rest[i] != [] && rest[j] == []
  }

  lemma {:induction false} FinishedFront<T>(msgs: seq<T>, rest: seq<seq<Byte>>)
    requires |rest| == |msgs| && !Overtakes(rest)
    ensures |Finished(msgs, rest)| <= |msgs| && Finished(msgs, rest) == msgs[..|Finished(msgs, rest)|]
    ensures forall k :: 0 <= k < |msgs| ==> (rest[k] == [] <==> k < |Finished(msgs, rest)|)
  {
    if msgs != [] {
      var k := |msgs| - 1;
      assert forall i :: 0 <= i < k ==> rest[..k][i] == rest[i];
      FinishedFront(msgs[..k], rest[..k]);
    }
  }

  /** Only an empty one can be, behind one that has something left. */
  lemma OvertakesEmpty(was: seq<seq<Byte>>, n: nat)
    ensures Overtakes(Rest(was, n)) <==> exists i, j :: 0 <= i < j < |was| && was[j] == [] && Rest(was, n)[i] != []
  {
    hide Rest, Flat;
    var rest := Rest(was, n);
    forall i, j | 0 <= i < j < |was| && rest[i] != [] ensures rest[j] == was[j] {
      RestBehind(was, n, i, j);
    }
  }

  /** When no message is empty, the finished ones are the first of the queue. */
  lemma FinishedPrefix<T>(msgs: seq<T>, was: seq<seq<Byte>>, n: nat) returns (f: nat)
    requires |was| == |msgs| && forall k :: 0 <= k < |was| ==> was[k] != []
    ensures f <= |msgs| && Finished(msgs, Rest(was, n)) == msgs[..f]
    ensures forall k :: 0 <= k < |was| ==> (Rest(was, n)[k] == [] <==> k < f)
    ensures f < |msgs| ==> n < |Flat(was)|
    ensures n >= |Flat(was)| ==> f == |msgs|
  {
    hide Rest, Flat, Finished;
    OvertakesEmpty(was, n);
    FinishedFront(msgs, Rest(was, n));
    f := |Finished(msgs, Rest(was, n))|;
    if msgs != [] {
      var k := |msgs| - 1;
      RestShape(was, n, k);
      FlatStep(was, k);
      assert was[..k + 1] == was;
    }
  }

  /** Taking the finished messages first leaves the order of the queue exactly if none
      overtakes another. */
  lemma InFront<T>(msgs: seq<T>, tail: seq<T>, rest: seq<seq<Byte>>)
    requires |rest| == |msgs| && NoDup(msgs + tail)
    ensures var gone := Finished(msgs, rest);
      msgs + tail == gone + Less(msgs + tail, SetOf(gone)) <==> !Overtakes(rest)
  {
    hide Less, Finished;
    var gone := Finished(msgs, rest);
    NoDupFront(msgs, tail);
    if !Overtakes(rest) {
      FinishedFront(msgs, rest);
      var back := msgs[|gone|..] + tail;
      assert msgs + tail == gone + back;
      LessFront(gone, back);
    } else {
      FinishedIn(msgs, rest);
      var i, j :| 0 <= i < j < |rest| && rest[i] != [] && rest[j] == [];
      NotInFront(msgs, tail, gone, Less(msgs + tail, SetOf(gone)), i, j);
    }
  }

  lemma NotInFront<T>(msgs: seq<T>, tail: seq<T>, gone: seq<T>, left: seq<T>, i: nat, j: nat)
    requires i < j < |msgs| && NoDup(msgs + tail) && msgs[i] !in gone && msgs[j] in gone
    ensures msgs + tail != gone + left
  {
    var k :| 0 <= k < |gone| && gone[k] == msgs[j];
    assert (gone + left)[k] == (msgs + tail)[j];
    assert k > i ==> (gone + left)[i] == gone[i] && (msgs + tail)[i] == msgs[i];
  }

  // ---------- one byte string, sent in parts ----------

  lemma FlatOne(text: seq<Byte>)
    ensures Flat([text]) == text
  {
    assert [text][..0] == [];
  }

  lemma RestOne(text: seq<Byte>, n: nat)
    requires n <= |text|
    ensures Rest([text], n) == [text[n..]]
  {
    hide Rest;
    RestShape([text], n, 0);
  }

  lemma FinishedOne<T>(msg: T, rest: seq<Byte>)
    ensures Finished([msg], [rest]) == if rest == [] then [msg] else []
  {
    FinishedStep([msg], [rest], 0);
    assert [msg][..1] == [msg] && [rest][..1] == [rest];
  }

  /** What is unsent is the end of the text. */
  ghost predicate Split(text: seq<Byte>, unsent: seq<Byte>) {
    |unsent| <= |text| && unsent == text[|text| - |unsent|..]
  }

  /** The part of a text that was sent. */
  ghost function Sent(text: seq<Byte>, unsent: seq<Byte>): seq<Byte>
    requires |unsent| <= |text|
  {
    text[..|text| - |unsent|]
  }

  lemma SentAll(text: seq<Byte>)
    ensures Split(text, []) && Sent(text, []) == text
  {
  }

  lemma SentNone(text: seq<Byte>)
    ensures Split(text, text) && Sent(text, text) == []
  {
  }

  lemma SplitFurther(text: seq<Byte>, unsent: seq<Byte>, n: nat)
    requires Split(text, unsent) && n <= |unsent|
    ensures Split(text, unsent[n..]) && Sent(text, unsent[n..]) == Sent(text, unsent) + unsent[..n]
  {
  }
}
