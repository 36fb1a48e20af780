/** conf_parse of src/gf_conf.c: the argument stack and the handler calls, on a document
    that the validator has accepted. */
module ConfParser {
  import opened Conf

  /** The handler's work: a new pool, or a directive of the pool made last. */
  datatype Call = Init(pool: nat, name: string) | Set(pool: nat, key: string, value: string)

  /** Does the handler succeed in its k-th call? */
  type Handler = (nat, Call) -> bool

  datatype Status = Running | Finished | Failed | Broken

  /** The fields of the parser. Broken stands for a pop from an empty stack, a broken
      assertion, or an event the source has no case for. */
  datatype Parse = Parse(depth: nat, list: bool, arg: seq<string>, pools: nat, calls: seq<Call>, status: Status)

  // ---------- the calls a document asks for ----------

  function ElemCalls(pool: nat, key: string, elems: seq<Node>): seq<Call>
    requires Scalars(elems)
  {
    if elems == [] then []
    else
      assert elems[0] in elems && forall e :: e in elems[1..] ==> e in elems;
      [Set(pool, key, elems[0].text)] + ElemCalls(pool, key, elems[1..])
  }

  function PairCalls(pool: nat, p: Pair): seq<Call>
    requires p.key.Scalar? && (p.value.Scalar? || (p.value.Seq? && Scalars(p.value.elems)))
  {
    if p.value.Scalar? then [Set(pool, p.key.text, p.value.text)] else ElemCalls(pool, p.key.text, p.value.elems)
  }

  function DirectiveCalls(pool: nat, pairs: seq<Pair>, found: bool): seq<Call>
    requires Directives(pairs, found)
  {
    if pairs == [] then []
    else PairCalls(pool, pairs[0]) + DirectiveCalls(pool, pairs[1..], found || pairs[0].value.Seq?)
  }

  function PoolCalls(pool: nat, pairs: seq<Pair>): seq<Call>
    requires Pools(pairs)
    decreases |pairs|
  {
    if pairs == [] then []
    else
      PoolsFirst(pairs);
      [Init(pool, pairs[0].key.text)] + DirectiveCalls(pool, pairs[0].value.pairs, false) +
      PoolCalls(pool + 1, pairs[1..])
  }

  /** No scalar is empty. */
  predicate Full(node: Node)
    decreases node
  {
    match node
    case Scalar(text) => text != ""
    case Seq(elems) => forall e :: e in elems ==> Full(e)
    case Map(pairs) => forall p :: p in pairs ==> Full(p.key) && Full(p.value)
  }

  ghost predicate Willing(h: Handler) {
    forall k, c :: h(k, c)
  }

  // ---------- the automaton ----------

  /** conf_handler on the stack. */
  function CallOf(s: Parse): Call
    requires s.arg != [] && s.pools > 0
  {
    var n := |s.arg|;
    if n == 1 then Init(s.pools - 1, s.arg[0]) else Set(s.pools - 1, s.arg[n - 2], s.arg[n - 1])
  }

  function Handle(s: Parse, h: Handler): Parse {
    if s.arg == [] || s.pools == 0 then s.(status := Broken)
    else s.(calls := s.calls + [CallOf(s)], status := if h(|s.calls|, CallOf(s)) then s.status else Failed)
  }

  function Pop(s: Parse): Parse {
    if s.arg == [] then s.(status := Broken) else s.(arg := s.arg[..|s.arg| - 1])
  }

  function LeafStep(s: Parse, h: Handler): Parse {
    if s.depth != MAX_DEPTH then s.(status := Broken)
    else
      var t := Pop(Handle(s, h));
      if s.list then t else Pop(t)
  }

  /** conf_parse_core on one event. */
  function Step1(s: Parse, e: Event, h: Handler): Parse {
    match e
    case MapEnd =>
      if s.depth == 0 then s.(status := Broken)
      else
        var t := s.(depth := s.depth - 1);
        if t.depth == 1 then Pop(t) else if t.depth == 0 then t.(status := Finished) else t
    case MapStart => s.(depth := s.depth + 1)
    case SeqStart => s.(list := true)
    case SeqEnd => Pop(s).(list := false)
    case Text(text) =>
      if text == "" then s.(status := Failed)
      else
        var t := s.(arg := s.arg + [text]);
        if t.list then LeafStep(t, h)
        else if t.depth == ROOT_DEPTH then Handle(t.(pools := t.pools + 1), h)
        else if |t.arg| == t.depth + 1 then LeafStep(t, h)
        else t
    case _ => s.(status := Broken)
  }

  function Parsed(s: Parse, es: seq<Event>, h: Handler): Parse
    decreases |es|
  {
    if es == [] || !s.status.Running? then s else Parsed(Step1(s, es[0], h), es[1..], h)
  }

  lemma {:induction false} ParsedConcat(s: Parse, es: seq<Event>, fs: seq<Event>, h: Handler)
    ensures Parsed(s, es + fs, h) == Parsed(Parsed(s, es, h), fs, h)
    decreases |es|
  {
    if es == [] {
      assert es + fs == fs;
    } else if s.status.Running? {
      ParsedConcat(Step1(s, es[0], h), es[1..], fs, h);
      assert (es + fs)[1..] == es[1..] + fs;
    }
  }

  lemma ParsedOne(s: Parse, e: Event, h: Handler)
    requires s.status.Running?
    ensures Parsed(s, [e], h) == Step1(s, e, h)
  {
    assert [e][1..] == [];
    assert Parsed(Step1(s, e, h), [], h) == Step1(s, e, h);
  }

  lemma Over(s: Parse, es: seq<Event>, h: Handler)
    requires !s.status.Running?
    ensures Parsed(s, es, h) == s
  {
  }

  /** From s to r with exactly the calls cs, the rest of the fields as in t; or a failure
      after some of them. */
  ghost predicate Advanced(s: Parse, t: Parse, r: Parse, cs: seq<Call>, clean: bool) {
    || r == t.(calls := s.calls + cs)
    || (r.status.Failed? && s.calls <= r.calls <= s.calls + cs && !clean)
  }

  /** One text inside a list. */
  lemma ElemStep(s: Parse, text: string, h: Handler)
    requires s.status.Running? && s.list && s.depth == MAX_DEPTH && |s.arg| == 2 && s.pools > 0
    ensures
      var r := Step1(s, Text(text), h);
      var call := Set(s.pools - 1, s.arg[1], text);
      if text == "" then r == s.(status := Failed)
      else r == s.(calls := s.calls + [call], status := if h(|s.calls|, call) then Running else Failed)
  {
    assert (s.arg + [text])[..2] == s.arg;
  }

  lemma {:induction false} ParsedElems(s: Parse, elems: seq<Node>, h: Handler)
    requires s.status.Running? && s.list && s.depth == MAX_DEPTH && |s.arg| == 2 && s.pools > 0 && Scalars(elems)
    ensures Advanced(s, s, Parsed(s, ElemEvents(elems), h), ElemCalls(s.pools - 1, s.arg[1], elems),
                     Willing(h) && Full(Seq(elems)))
    decreases |elems|
  {
    hide Step1;
    if elems != [] {
      var e := elems[0];
      assert e in elems && forall x :: x in elems[1..] ==> x in elems;
      ParsedConcat(s, Events(e), ElemEvents(elems[1..]), h);
      ParsedOne(s, Text(e.text), h);
      ElemStep(s, e.text, h);
      var t := Step1(s, Text(e.text), h);
      var call, rest := Set(s.pools - 1, s.arg[1], e.text), ElemCalls(s.pools - 1, s.arg[1], elems[1..]);
      assert s.calls + [call] + rest == s.calls + ([call] + rest);
      if t.status.Running? {
        ParsedElems(t, elems[1..], h);
      } else {
        Over(t, ElemEvents(elems[1..]), h);
      }
    }
  }

  /** Between two directives of a pool. */
  predicate InPool(s: Parse) {
    s.status.Running? && !s.list && s.depth == MAX_DEPTH && |s.arg| == 1 && s.pools > 0
  }

  lemma KeyStep(s: Parse, text: string, h: Handler)
    requires InPool(s)
    ensures Step1(s, Text(text), h) == if text == "" then s.(status := Failed) else s.(arg := s.arg + [text])
  {
  }

  lemma ValueStep(s: Parse, text: string, h: Handler)
    requires s.status.Running? && !s.list && s.depth == MAX_DEPTH && |s.arg| == 2 && s.pools > 0
    ensures
      var call := Set(s.pools - 1, s.arg[1], text);
      Step1(s, Text(text), h) ==
        if text == "" then s.(status := Failed)
        else s.(arg := s.arg[..1], calls := s.calls + [call], status := if h(|s.calls|, call) then Running else Failed)
  {
    var arg := s.arg + [text];
    assert arg[..2] == s.arg && arg[..2][..1] == s.arg[..1];
  }

  /** A list as the value of a directive. */
  lemma ParsedList(s: Parse, elems: seq<Node>, h: Handler)
    requires s.status.Running? && !s.list && s.depth == MAX_DEPTH && |s.arg| == 2 && s.pools > 0 && Scalars(elems)
    ensures Advanced(s, s.(arg := s.arg[..1]), Parsed(s, Events(Seq(elems)), h),
                     ElemCalls(s.pools - 1, s.arg[1], elems),
                     Willing(h) && Full(Seq(elems)))
  {
    hide Full, ElemCalls, ElemEvents, Willing, Scalars;
    var t := s.(list := true);
    assert Events(Seq(elems)) == [SeqStart] + (ElemEvents(elems) + [SeqEnd]);
    ParsedConcat(s, [SeqStart], ElemEvents(elems) + [SeqEnd], h);
    ParsedOne(s, SeqStart, h);
    ParsedConcat(t, ElemEvents(elems), [SeqEnd], h);
    ParsedElems(t, elems, h);
    var m := Parsed(t, ElemEvents(elems), h);
    if m.status.Running? {
      ParsedOne(m, SeqEnd, h);
    } else {
      Over(m, [SeqEnd], h);
    }
  }

  /** One directive. */
  lemma ParsedPair(s: Parse, p: Pair, h: Handler)
    requires InPool(s) && p.key.Scalar? && (p.value.Scalar? || (p.value.Seq? && Scalars(p.value.elems)))
    ensures Advanced(s, s, Parsed(s, Events(p.key) + Events(p.value), h), PairCalls(s.pools - 1, p),
                     Willing(h) && Full(p.key) && Full(p.value))
  {
    hide Step1, Scalars, ElemCalls;
    ParsedConcat(s, Events(p.key), Events(p.value), h);
    ParsedOne(s, Text(p.key.text), h);
    KeyStep(s, p.key.text, h);
    var t := Step1(s, Text(p.key.text), h);
    if t.status.Running? {
      assert (s.arg + [p.key.text])[..1] == s.arg;
      if p.value.Scalar? {
        ParsedOne(t, Text(p.value.text), h);
        ValueStep(t, p.value.text, h);
      } else {
        ParsedList(t, p.value.elems, h);
      }
    } else {
      Over(t, Events(p.value), h);
    }
  }

  /** The directives of a pool, up to their end. */
  lemma {:induction false} ParsedPool(s: Parse, pairs: seq<Pair>, found: bool, h: Handler)
    requires InPool(s) && Directives(pairs, found)
    ensures Advanced(s, s.(depth := 1, arg := []), Parsed(s, PairEvents(pairs) + [MapEnd], h),
                     DirectiveCalls(s.pools - 1, pairs, found), Willing(h) && Full(Map(pairs)))
    decreases |pairs|
  {
    hide Directives, PairEvents, Events, PairCalls, DirectiveCalls, Step1, Willing, Full;
    if pairs == [] {
      PoolEnd(s, found, h);
    } else {
      var cs, ds, first, rest := FirstDirective(s.pools - 1, pairs, found);
      ParsedConcat(s, first, rest, h);
      ParsedPair(s, pairs[0], h);
      var t := Parsed(s, first, h);
      if t.status.Running? {
        ParsedPool(t, pairs[1..], found || pairs[0].value.Seq?, h);
      } else {
        Over(t, rest, h);
      }
      Chained(s, s, s.(depth := 1, arg := []), t, Parsed(t, rest, h), cs, ds,
              Willing(h) && Full(Map(pairs)), Willing(h) && Full(Map(pairs)));
    }
  }

  lemma PoolEnd(s: Parse, found: bool, h: Handler)
    requires InPool(s) && Directives([], found)
    ensures Parsed(s, PairEvents([]) + [MapEnd], h) == s.(depth := 1, arg := [])
    ensures DirectiveCalls(s.pools - 1, [], found) == []
  {
    assert PairEvents([]) + [MapEnd] == [MapEnd];
    ParsedOne(s, MapEnd, h);
    assert s.arg[..0] == [];
  }

  /** Two advances after each other, the second one only if the first has not failed. */
  lemma Chained(s: Parse, u: Parse, e: Parse, t: Parse, r: Parse, cs: seq<Call>, ds: seq<Call>, clean: bool,
                clean': bool)
    requires u.status.Running? && Advanced(s, u, t, cs, clean)
    requires if t.status.Running? then Advanced(t, e, r, ds, clean') else r == t
    ensures Advanced(s, e, r, cs + ds, clean && clean')
  {
    assert s.calls + cs + ds == s.calls + (cs + ds);
  }

  lemma FirstDirective(pool: nat, pairs: seq<Pair>, found: bool)
    returns (cs: seq<Call>, ds: seq<Call>, first: seq<Event>, rest: seq<Event>)
    requires Directives(pairs, found) && pairs != []
    ensures var found' := found || pairs[0].value.Seq?;
      && Directives(pairs[1..], found') && ds == DirectiveCalls(pool, pairs[1..], found')
    ensures pairs[0].key.Scalar? && (pairs[0].value.Scalar? || (pairs[0].value.Seq? && Scalars(pairs[0].value.elems)))
    ensures cs == PairCalls(pool, pairs[0]) && DirectiveCalls(pool, pairs, found) == cs + ds
    ensures first == Events(pairs[0].key) + Events(pairs[0].value) && rest == PairEvents(pairs[1..]) + [MapEnd]
    ensures PairEvents(pairs) + [MapEnd] == first + rest
    ensures Full(Map(pairs)) ==> Full(pairs[0].key) && Full(pairs[0].value) && Full(Map(pairs[1..]))
  {
    hide Events, PairCalls;
    var p := pairs[0];
    assert p in pairs && forall x :: x in pairs[1..] ==> x in pairs;
    cs := PairCalls(pool, p);
    ds := DirectiveCalls(pool, pairs[1..], found || p.value.Seq?);
    first := Events(p.key) + Events(p.value);
    rest := PairEvents(pairs[1..]) + [MapEnd];
  }

  /** Between two pools. */
  predicate AtTop(s: Parse) {
    s.status.Running? && !s.list && s.depth == 1 && s.arg == []
  }

  lemma NameStep(s: Parse, name: string, h: Handler)
    requires AtTop(s)
    ensures
      var call := Init(s.pools, name);
      Step1(s, Text(name), h) ==
        if name == "" then s.(status := Failed)
        else s.(arg := [name], pools := s.pools + 1, calls := s.calls + [call],
                status := if h(|s.calls|, call) then Running else Failed)
  {
    assert s.arg + [name] == [name];
  }

  /** One pool. */
  lemma ParsedPoolPair(s: Parse, p: Pair, h: Handler)
    requires AtTop(s) && PoolPair(p)
    ensures Advanced(s, s.(pools := s.pools + 1), Parsed(s, Events(p.key) + Events(p.value), h),
                     [Init(s.pools, p.key.text)] + DirectiveCalls(s.pools, p.value.pairs, false),
                     Willing(h) && Full(p.key) && Full(p.value))
  {
    hide Step1, DirectiveCalls, Directives;
    ParsedConcat(s, Events(p.key), Events(p.value), h);
    ParsedOne(s, Text(p.key.text), h);
    NameStep(s, p.key.text, h);
    var t := Step1(s, Text(p.key.text), h);
    var call, ds := Init(s.pools, p.key.text), DirectiveCalls(s.pools, p.value.pairs, false);
    assert s.calls + [call] + ds == s.calls + ([call] + ds);
    if t.status.Running? {
      var inside := PairEvents(p.value.pairs) + [MapEnd];
      assert Events(p.value) == [MapStart] + inside;
      ParsedConcat(t, [MapStart], inside, h);
      ParsedOne(t, MapStart, h);
      Deeper(t, h);
      ParsedPool(t.(depth := 2), p.value.pairs, false, h);
    } else {
      Over(t, Events(p.value), h);
    }
  }

  lemma Deeper(s: Parse, h: Handler)
    ensures Step1(s, MapStart, h) == s.(depth := s.depth + 1)
  {
  }

  lemma {:induction false} ParsedPools(s: Parse, pairs: seq<Pair>, h: Handler)
    requires AtTop(s) && Pools(pairs)
    ensures Advanced(s, s.(pools := s.pools + |pairs|, depth := 0, status := Finished),
                     Parsed(s, PairEvents(pairs) + [MapEnd], h),
                     PoolCalls(s.pools, pairs), Willing(h) && Full(Map(pairs)))
    decreases |pairs|
  {
    hide Directives, Events, DirectiveCalls, Step1, Willing, PoolPair, Pools, Full, PoolCalls;
    if pairs == [] {
      assert PairEvents(pairs) + [MapEnd] == [MapEnd];
      ParsedOne(s, MapEnd, h);
      EndStep(s, h);
    } else {
      var p := pairs[0];
      PoolsFirst(pairs);
      var first, rest := Events(p.key) + Events(p.value), PairEvents(pairs[1..]) + [MapEnd];
      assert PairEvents(pairs) + [MapEnd] == first + rest;
      var cs, ds := FirstCalls(s.pools, pairs);
      hide PairEvents;
      ParsedConcat(s, first, rest, h);
      ParsedPoolPair(s, p, h);
      var t := Parsed(s, first, h);
      assert s.calls + cs + ds == s.calls + (cs + ds);
      if t.status.Running? {
        ParsedPools(t, pairs[1..], h);
      } else {
        Over(t, rest, h);
      }
    }
  }

  lemma EndStep(s: Parse, h: Handler)
    requires AtTop(s)
    ensures Step1(s, MapEnd, h) == s.(depth := 0, status := Finished)
    ensures PoolCalls(s.pools, []) == []
  {
  }

  lemma FirstCalls(pool: nat, pairs: seq<Pair>) returns (cs: seq<Call>, ds: seq<Call>)
    requires Pools(pairs) && pairs != []
    ensures PoolPair(pairs[0]) && Pools(pairs[1..])
    ensures cs == [Init(pool, pairs[0].key.text)] + DirectiveCalls(pool, pairs[0].value.pairs, false)
    ensures ds == PoolCalls(pool + 1, pairs[1..]) && PoolCalls(pool, pairs) == cs + ds
    ensures Full(Map(pairs)) ==> Full(pairs[0].key) && Full(pairs[0].value) && Full(Map(pairs[1..]))
  {
    hide Directives, DirectiveCalls;
    PoolsFirst(pairs);
    var p := pairs[0];
    assert p in pairs && forall x :: x in pairs[1..] ==> x in pairs;
    cs := [Init(pool, p.key.text)] + DirectiveCalls(pool, p.value.pairs, false);
    ds := PoolCalls(pool + 1, pairs[1..]);
  }

  const INITIAL := Parse(1, false, [], 0, [], Running)

  /** The parser on a document that the validator accepts: it never pops an empty stack or
      breaks an assertion. With no empty scalar and a handler that succeeds, it ends at
      depth 0 with an empty stack, after exactly the calls of the document; otherwise it
      may fail after some of them. */
  lemma ParsesAccepted(doc: Node, h: Handler)
    requires Conforms(doc)
    ensures
      var r := Parsed(INITIAL, PairEvents(doc.pairs) + [MapEnd], h);
      && !r.status.Broken? && !r.status.Running? && r.calls <= PoolCalls(0, doc.pairs)
      && (r.status.Finished? ==>
        r.depth == 0 && r.arg == [] && !r.list && r.pools == |doc.pairs| && r.calls == PoolCalls(0, doc.pairs))
      && (Willing(h) && Full(doc) ==> r.status.Finished?)
  {
    hide Parsed, PairEvents, PoolCalls, Pools, Willing;
    ParsedPools(INITIAL, doc.pairs, h);
    assert INITIAL.calls + PoolCalls(0, doc.pairs) == PoolCalls(0, doc.pairs);
  }

  // ---------- which calls succeed ----------

  /** One event makes one call at most, and the parser goes on exactly if it succeeds. */
  lemma StepCalls(s: Parse, e: Event, h: Handler)
    requires s.status.Running? && !Step1(s, e, h).status.Broken?
    ensures
      var r := Step1(s, e, h);
      if e == Text("") then r.status.Failed? && r.calls == s.calls
      else if r.calls == s.calls then !r.status.Failed?
      else
        && |r.calls| == |s.calls| + 1 && r.calls[..|s.calls|] == s.calls
        && (r.status.Failed? <==> !h(|s.calls|, r.calls[|s.calls|]))
  {
  }

  /** All calls succeed but for the last one, if the parser has failed; and unless it met an
      empty scalar it has failed for that reason only. */
  lemma {:induction false} CallsSucceed(s: Parse, es: seq<Event>, h: Handler)
    requires s.status.Running? && !Parsed(s, es, h).status.Broken?
    ensures
      var r := Parsed(s, es, h);
      && s.calls <= r.calls
      && (!r.status.Failed? ==> forall k :: |s.calls| <= k < |r.calls| ==> h(k, r.calls[k]))
      && (forall k :: |s.calls| <= k < |r.calls| - 1 ==> h(k, r.calls[k]))
      && (r.status.Failed? && Text("") !in es ==>
            |s.calls| < |r.calls| && !h(|r.calls| - 1, r.calls[|r.calls| - 1]))
      && (r.status.Running? ==> Text("") !in es)
    decreases |es|
  {
    hide Step1;
    if es != [] {
      var t := Step1(s, es[0], h);
      assert es == [es[0]] + es[1..];
      if t.status.Running? {
        StepCalls(s, es[0], h);
        CallsSucceed(t, es[1..], h);
      } else {
        Over(t, es[1..], h);
        StepCalls(s, es[0], h);
      }
    }
  }

  /** A document without empty scalars has no empty text among its events. */
  lemma {:induction false} FullEvents(node: Node)
    ensures Full(node) <==> Text("") !in Events(node)
    decreases node, 0
  {
    hide Full, ElemEvents, PairEvents;
    match node {
      case Scalar(text) => assert Full(node) <==> text != "" by { FullIs(node); }
      case Seq(elems) =>
        FullElems(elems);
        FullIs(node);
      case Map(pairs) =>
        FullPairs(pairs);
        FullIs(node);
    }
  }

  lemma FullIs(node: Node)
    ensures node.Scalar? ==> (Full(node) <==> node.text != "")
    ensures node.Seq? ==> (Full(node) <==> forall e :: e in node.elems ==> Full(e))
    ensures node.Map? ==> (Full(node) <==> forall p :: p in node.pairs ==> Full(p.key) && Full(p.value))
  {
  }

  lemma {:induction false} FullElems(elems: seq<Node>)
    ensures (forall e :: e in elems ==> Full(e)) <==> Text("") !in ElemEvents(elems)
    decreases elems, 1
  {
    hide Full, Events;
    if elems != [] {
      FullEvents(elems[0]);
      FullElems(elems[1..]);
      assert elems == [elems[0]] + elems[1..];
    }
  }

  lemma {:induction false} FullPairs(pairs: seq<Pair>)
    ensures (forall p :: p in pairs ==> Full(p.key) && Full(p.value)) <==> Text("") !in PairEvents(pairs)
    decreases pairs, 1
  {
    hide Full, Events;
    if pairs != [] {
      var p := pairs[0];
      assert p.key < p && p.value < p && p in pairs;
      FullEvents(p.key);
      FullEvents(p.value);
      FullPairs(pairs[1..]);
      assert pairs == [p] + pairs[1..];
    }
  }

  /** Does the handler succeed in the first n of some calls? */
  ghost predicate Succeeds(h: Handler, calls: seq<Call>, n: int) {
    forall k :: 0 <= k < n && k < |calls| ==> h(k, calls[k])
  }

  /** The parser does not end before the last event. */
  lemma {:induction false} NotBefore(s: Parse, pairs: seq<Pair>, h: Handler)
    requires AtTop(s) && Pools(pairs)
    ensures
      var r := Parsed(s, PairEvents(pairs), h);
      AtTop(r) || r.status.Failed?
    decreases |pairs|
  {
    hide Directives, Events, DirectiveCalls, Step1, PoolPair, Pools, Full;
    if pairs == [] {
      assert PairEvents(pairs) == [];
    } else {
      var p := pairs[0];
      PoolsFirst(pairs);
      var first, rest := Events(p.key) + Events(p.value), PairEvents(pairs[1..]);
      assert PairEvents(pairs) == first + rest;
      hide PairEvents;
      ParsedConcat(s, first, rest, h);
      ParsedPoolPair(s, p, h);
      var t := Parsed(s, first, h);
      if t.status.Running? {
        NotBefore(t, pairs[1..], h);
      } else {
        Over(t, rest, h);
      }
    }
  }

  /** The parser gets to the end of an accepted document if and only if no scalar is empty
      and every call succeeds. Otherwise it stops at the first call that fails, or before
      it at an empty scalar. */
  lemma ParsesExactly(doc: Node, h: Handler)
    requires Conforms(doc)
    ensures
      var r := Parsed(INITIAL, PairEvents(doc.pairs) + [MapEnd], h);
      var all := PoolCalls(0, doc.pairs);
      && (r.status.Finished? <==> Full(doc) && Succeeds(h, all, |all|))
      && r.calls <= all && Succeeds(h, all, |r.calls| - 1)
      && (Full(doc) && !r.status.Finished? ==> r.calls != [] && !h(|r.calls| - 1, all[|r.calls| - 1]))
  {
    hide Parsed, PairEvents, PoolCalls, Pools, Willing, Full;
    var es, all := PairEvents(doc.pairs), PoolCalls(0, doc.pairs);
    ParsesAccepted(doc, h);
    ParsedConcat(INITIAL, es, [MapEnd], h);
    NotBefore(INITIAL, doc.pairs, h);
    var m, r := Parsed(INITIAL, es, h), Parsed(INITIAL, es + [MapEnd], h);
    CallsSucceed(INITIAL, es + [MapEnd], h);
    FullPairs(doc.pairs);
    FullIs(doc);
    assert Text("") in es + [MapEnd] <==> Text("") in es;
    if m.status.Running? {
      CallsSucceed(INITIAL, es, h);
      ParsedOne(m, MapEnd, h);
      EndStep(m, h);
    } else {
      Over(m, [MapEnd], h);
    }
    if Full(doc) && !r.status.Finished? {
      var k := |r.calls| - 1;
      assert r.calls[k] == all[k] && !h(k, all[k]);
    }
  }

  // ---------- the parser object ----------

  class Parser {
    var depth: nat
    var list: bool           // cf->seq
    var arg: seq<string>
    var pools: nat
    var calls: seq<Call>     // what the handler was called with
    const handler: Handler

    constructor (handler: Handler)
      ensures Now(Running) == INITIAL.(depth := 0) && this.handler == handler
    {
      this.handler := handler;
      depth, list, arg, pools, calls := 0, false, [], 0, [];
    }

    function Now(status: Status): Parse
      reads this
    {
      Parse(depth, list, arg, pools, calls, status)
    }

    /** conf_pop_scalar */
    method PopScalar()
      requires arg != []
      modifies `arg
      ensures arg == old(arg)[..|old(arg)| - 1]
    {
      arg := arg[..|arg| - 1];
    }

    /** conf_handler */
    method Handler() returns (ok: bool)
      requires arg != [] && pools > 0
      modifies `calls
      ensures calls == old(calls) + [CallOf(old(Now(Running)))] &&
        ok == handler(|old(calls)|, CallOf(old(Now(Running))))
    {
      var call;
      var narg := |arg|;
      if narg == 1 {
        call := Init(pools - 1, arg[narg - 1]);
      } else {
        call := Set(pools - 1, arg[narg - 2], arg[narg - 1]);
      }
      ok := handler(|calls|, call);
      calls := calls + [call];
    }

    /** A leaf: the handler is called, and the value, or the value and its key, go. */
    method Leaf() returns (ok: bool)
      requires LeafStep(Now(Running), handler).status != Broken
      modifies `arg, `calls
      ensures Now(if ok then Running else Failed) == old(LeafStep(Now(Running), handler))
    {
      ok := Handler();
      PopScalar();
      if !list {
        PopScalar();
      }
    }

    /** The scalar case of conf_parse_core, with the handler call it leads to. */
    method OnText(text: string) returns (ok: bool)
      requires Step1(Now(Running), Text(text), handler).status != Broken
      modifies `arg, `pools, `calls
      ensures Now(if ok then Running else Failed) == old(Step1(Now(Running), Text(text), handler))
    {
      hide LeafStep;
      if text == "" {
        return false;
      }
      arg := arg + [text];
      ok := true;
      if list {
        ok := Leaf();
      } else if depth == ROOT_DEPTH {
        pools := pools + 1;
        ok := Handler();
      } else if |arg| == depth + 1 {
        ok := Leaf();
      }
    }

    /** conf_parse_core from the event at place next on. */
    method ParseCore(events: seq<Event>, next: nat) returns (ok: bool)
      requires next <= |events|
      requires var r := Parsed(Now(Running), events[next..], handler); !r.status.Broken? && !r.status.Running?
      modifies this
      ensures Now(if ok then Finished else Failed) == old(Parsed(Now(Running), events[next..], handler))
      decreases |events| - next
    {
      hide Parsed, Handle, LeafStep;
      ghost var s := Now(Running);
      ParsedHead(s, events, next, handler);
      ok := true;
      match events[next] {
        case MapEnd =>
          depth := depth - 1;
          if depth == 1 {
            PopScalar();
          } else if depth == 0 {
            return;
          }
        case MapStart => depth := depth + 1;
        case SeqStart => list := true;
        case SeqEnd =>
          PopScalar();
          list := false;
        case Text(text) => ok := OnText(text);
        case _ =>
          assert false;
      }
      if !ok {
        return;
      }
      ok := ParseCore(events, next + 1);
    }

    /** conf_parse of a document that the validator has accepted. */
    method ParseDocument(events: seq<Event>, ghost doc: Node) returns (ok: bool)
      requires Conforms(doc) && events == Stream(doc) && Now(Running) == INITIAL.(depth := 0)
      modifies this
      ensures calls <= PoolCalls(0, doc.pairs)
      ensures ok ==> depth == 0 && arg == [] && pools == |doc.pairs| && calls == PoolCalls(0, doc.pairs)
      ensures ok <==> Full(doc) && Succeeds(handler, PoolCalls(0, doc.pairs), |PoolCalls(0, doc.pairs)|)
      ensures Succeeds(handler, calls, |calls| - 1)
      ensures !ok && Full(doc) ==> calls != [] && !handler(|calls| - 1, calls[|calls| - 1])
    {
      hide Parsed, Pools, PoolCalls, Full, Willing;
      ghost var inside := PairEvents(doc.pairs) + [MapEnd];
      assert events[2] == MapStart;
      depth := depth + 1;
      ParsesAccepted(doc, handler);
      ParsesExactly(doc, handler);
      assert events[3..] == inside + [DocumentEnd, StreamEnd];
      ParsedConcat(INITIAL, inside, [DocumentEnd, StreamEnd], handler);
      Over(Parsed(INITIAL, inside, handler), [DocumentEnd, StreamEnd], handler);
      ok := ParseCore(events, 3);
    }
  }

  /** conf_create: the document is parsed if it passes the validator. */
  method Create(events: seq<Event>, ghost doc: Node, handler: Handler) returns (ok: bool, calls: seq<Call>)
    requires events == Stream(doc)
    ensures if Conforms(doc) then calls <= PoolCalls(0, doc.pairs) else !ok && calls == []
    ensures ok ==> calls == PoolCalls(0, doc.pairs)
    ensures ok <==>
      Conforms(doc) && Full(doc) && Succeeds(handler, PoolCalls(0, doc.pairs), |PoolCalls(0, doc.pairs)|)
    ensures Succeeds(handler, calls, |calls| - 1)
    ensures !ok && Conforms(doc) && Full(doc) ==> calls != [] && !handler(|calls| - 1, calls[|calls| - 1])
  {
    hide Conforms, Pools, PoolCalls, Full, Willing, Stream;
    ok := Validate(events, doc);
    if !ok {
      return false, [];
    }
    var parser := new Parser(handler);
    ok := parser.ParseDocument(events, doc);
    calls := parser.calls;
  }

  /** A run that is not over has an event left, which does not break it. */
  lemma ParsedHead(s: Parse, events: seq<Event>, next: nat, h: Handler)
    requires s.status.Running? && next <= |events|
    requires var r := Parsed(s, events[next..], h); !r.status.Broken? && !r.status.Running?
    ensures next < |events| && !Step1(s, events[next], h).status.Broken?
    ensures Parsed(s, events[next..], h) == Parsed(Step1(s, events[next], h), events[next + 1..], h)
    ensures var t := Step1(s, events[next], h); !t.status.Running? ==> Parsed(s, events[next..], h) == t
  {
    if next < |events| {
      assert events[next..][1..] == events[next + 1..];
      var t := Step1(s, events[next], h);
      if !t.status.Running? {
        Over(t, events[next + 1..], h);
      }
    }
  }
}
