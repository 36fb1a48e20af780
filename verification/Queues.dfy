/** Queues as sequences: elements are put behind the others and taken out anywhere. */
module Queues {
  ghost predicate NoDup<T>(s: seq<T>) {
    forall i, j :: 0 <= i < j < |s| ==> s[i] != s[j]
  }

  function Dropped<T>(q: seq<T>, i: nat): (r: seq<T>)
    requires i < |q|
    ensures |r| == |q| - 1
  {
    q[..i] + q[i + 1..]
  }

  lemma NoDupPush<T>(s: seq<T>, r: T)
    requires NoDup(s) && r !in s
    ensures NoDup(s + [r])
  {
  }

  lemma NoDupFront<T>(s: seq<T>, t: seq<T>)
    requires NoDup(s + t)
    ensures NoDup(s)
  {
    assert forall i :: 0 <= i < |s| ==> (s + t)[i] == s[i];
  }

  lemma NoDupPop<T>(s: seq<T>)
    requires NoDup(s) && s != []
    ensures NoDup(s[1..]) && s[0] !in s[1..]
    ensures forall r :: r in s[1..] ==> r in s
  {
  }

  lemma NoDupDrop<T>(s: seq<T>, i: nat)
    requires NoDup(s) && i < |s|
    ensures NoDup(Dropped(s, i)) && s[i] !in Dropped(s, i)
    ensures forall r :: r in s <==> r in Dropped(s, i) || r == s[i]
  {
    forall r | r in s ensures r in Dropped(s, i) || r == s[i] {
      var k :| 0 <= k < |s| && s[k] == r;
      assert k < i ==> Dropped(s, i)[k] == r;
      assert k > i ==> Dropped(s, i)[k - 1] == r;
    }
  }

  /** Those that are not gone, in their order. */
  ghost function Less<T>(q: seq<T>, gone: set<T>): seq<T> {
    if q == [] then []
    else
      var k := |q| - 1;
      Less(q[..k], gone) + if q[k] in gone then [] else [q[k]]
  }

  lemma {:induction false} LessConcat<T>(q: seq<T>, p: seq<T>, gone: set<T>)
    ensures Less(q + p, gone) == Less(q, gone) + Less(p, gone)
  {
    if p == [] {
      assert q + p == q;
    } else {
      var k := |p| - 1;
      var tail := if p[k] in gone then [] else [p[k]];
      assert (q + p)[..|q| + k] == q + p[..k] && (q + p)[|q| + k] == p[k];
      assert Less(q + p, gone) == Less(q + p[..k], gone) + tail && Less(p, gone) == Less(p[..k], gone) + tail;
      hide Less;
      LessConcat(q, p[..k], gone);
    }
  }

  lemma {:induction false} LessAll<T>(q: seq<T>, gone: set<T>)
    requires forall r :: r in q ==> r in gone
    ensures Less(q, gone) == []
  {
    if q != [] {
      LessAll(q[..|q| - 1], gone);
    }
  }

  lemma LessParts<T>(a: seq<T>, b: seq<T>, c: seq<T>, gone: set<T>)
    requires (forall r :: r in a || r in c ==> r !in gone) && forall r :: r in b ==> r in gone
    ensures Less(a + (b + c), gone) == a + c
  {
    hide Less;
    LessConcat(a, b + c, gone);
    LessConcat(b, c, gone);
    LessNone(a, gone);
    LessAll(b, gone);
    LessNone(c, gone);
  }

  lemma {:induction false} LessIn<T>(q: seq<T>, gone: set<T>)
    ensures forall r :: r in Less(q, gone) ==> r in q && r !in gone
  {
    if q != [] {
      LessIn(q[..|q| - 1], gone);
    }
  }

  lemma LessPush<T>(q: seq<T>, r: T, gone: set<T>)
    ensures Less(q + [r], gone) == Less(q, gone) + if r in gone then [] else [r]
  {
    assert (q + [r])[..|q|] == q;
  }

  lemma {:induction false} LessNone<T>(q: seq<T>, gone: set<T>)
    requires forall r :: r in q ==> r !in gone
    ensures Less(q, gone) == q
  {
    if q != [] {
      LessNone(q[..|q| - 1], gone);
    }
  }

  ghost function SetOf<T>(q: seq<T>): set<T> {
    set r | r in q
  }

  lemma SetPush<T>(q: seq<T>, r: T)
    ensures SetOf(q + [r]) == SetOf(q) + {r} && SetOf(q) + {} == SetOf(q)
  {
  }

  lemma {:induction false} LessAgain<T>(q: seq<T>, gone: set<T>, more: set<T>)
    ensures Less(q, gone + more) == Less(Less(q, gone), more)
  {
    if q != [] {
      var k := |q| - 1;
      LessAgain(q[..k], gone, more);
      assert q[k] in gone ==> Less(q, gone) == Less(q[..k], gone);
      LessPush(Less(q[..k], gone), q[k], more);
    }
  }

  lemma LessDropped<T>(q: seq<T>, p: nat)
    requires NoDup(q) && p < |q|
    ensures Less(q, {q[p]}) == Dropped(q, p)
  {
    hide Less;
    Parts(q, p);
    LessParts(q[..p], [q[p]], q[p + 1..], {q[p]});
  }

  lemma Parts<T>(q: seq<T>, p: nat)
    requires p < |q|
    ensures q == q[..p] + ([q[p]] + q[p + 1..])
  {
  }

  /** One more is gone. */
  lemma LessMore<T>(q: seq<T>, gone: seq<T>, p: nat)
    requires NoDup(Less(q, SetOf(gone))) && p < |Less(q, SetOf(gone))|
    ensures var r := Less(q, SetOf(gone))[p];
      Less(q, SetOf(gone + [r])) == Dropped(Less(q, SetOf(gone)), p)
  {
    hide Less;
    var s := Less(q, SetOf(gone));
    LessDropped(s, p);
    LessAgain(q, SetOf(gone), {s[p]});
    SetPush(gone, s[p]);
  }

  /** When the first elements are gone the others are left. */
  lemma LessFront<T>(front: seq<T>, back: seq<T>)
    requires NoDup(front + back)
    ensures Less(front + back, SetOf(front)) == back
  {
    hide Less;
    LessConcat(front, back, SetOf(front));
    LessAll(front, SetOf(front));
    forall r | r in back ensures r !in SetOf(front) {
      var j :| 0 <= j < |back| && back[j] == r;
      assert (front + back)[|front| + j] == r;
      assert forall i :: 0 <= i < |front| ==> (front + back)[i] == front[i];
    }
    LessNone(back, SetOf(front));
  }

  /** The first elements of a queue are looked at one by one; the i-th is at place p now. */
  ghost predicate Aligned<T>(q: seq<T>, p: nat, first: seq<T>, i: nat) {
    i <= |first| && p + |first| - i <= |q| && q[p..p + |first| - i] == first[i..]
  }

  lemma AlignedStart<T>(q: seq<T>, first: seq<T>)
    requires |first| <= |q| && first == q[..|first|]
    ensures Aligned(q, 0, first, 0)
  {
  }

  lemma MovedOn<T>(q: seq<T>, p: nat, first: seq<T>, i: nat)
    requires Aligned(q, p, first, i) && i < |first|
    ensures p + |first| - i <= |q| && q[p] == first[i]
    ensures Aligned(q, p + 1, first, i + 1) && Aligned(Dropped(q, p), p, first, i + 1)
  {
    assert first[i..][1..] == first[i + 1..];
    assert q[p..p + |first| - i][1..] == q[p + 1..p + |first| - i];
    assert Dropped(q, p)[p..p + |first| - i - 1] == first[i + 1..];
  }
}
