/** The two automata of src/gf_conf.c over one stream of YAML events: the validator of
    the structure, and the parser that trusts it. */
module Conf {
  datatype Node = Scalar(text: string) | Seq(elems: seq<Node>) | Map(pairs: seq<Pair>)
  datatype Pair = Pair(key: Node, value: Node)

  datatype Event = StreamStart | StreamEnd | DocumentStart | DocumentEnd
                 | MapStart | MapEnd | SeqStart | SeqEnd | Text(text: string)

  const ROOT_DEPTH := 1
  const MAX_DEPTH := 2

  // ---------- the events of a document ----------

  function Events(node: Node): seq<Event>
    decreases node, 0
  {
    match node
    case Scalar(text) => [Text(text)]
    case Seq(elems) => [SeqStart] + ElemEvents(elems) + [SeqEnd]
    case Map(pairs) => [MapStart] + PairEvents(pairs) + [MapEnd]
  }

  function ElemEvents(elems: seq<Node>): seq<Event>
    decreases elems, 1
  {
    if elems == [] then [] else Events(elems[0]) + ElemEvents(elems[1..])
  }

  function PairEvents(pairs: seq<Pair>): seq<Event>
    decreases pairs, 1
  {
    if pairs == [] then []
    else
      var p := pairs[0];
      assert p.key < p && p.value < p && p in pairs;
      Events(p.key) + Events(p.value) + PairEvents(pairs[1..])
  }

  /** The stream of one document. */
  function Stream(doc: Node): seq<Event> {
    [StreamStart, DocumentStart] + Events(doc) + [DocumentEnd, StreamEnd]
  }

  // ---------- what a configuration looks like ----------

  predicate Scalars(elems: seq<Node>) {
    forall e :: e in elems ==> e.Scalar?
  }

  /** Directives of a pool: a scalar for each key, and a list of scalars for one of them;
      found says whether it has been seen. */
  predicate Directives(pairs: seq<Pair>, found: bool) {
    if pairs == [] then found
    else
      var p := pairs[0];
      p.key.Scalar? &&
      match p.value
      case Scalar(_) => Directives(pairs[1..], found)
      case Seq(elems) => !found && Scalars(elems) && Directives(pairs[1..], true)
      case Map(_) => false
  }

  /** How many directives have a list. */
  ghost function Lists(pairs: seq<Pair>): nat {
    if pairs == [] then 0 else Lists(pairs[1..]) + if pairs[0].value.Seq? then 1 else 0
  }

  /** In other words: scalar keys, scalars or lists of scalars as values, and one list. */
  lemma {:induction false} DirectivesAre(pairs: seq<Pair>, found: bool)
    ensures Directives(pairs, found) <==>
      && (forall p :: p in pairs ==>
            p.key.Scalar? && (p.value.Scalar? || (p.value.Seq? && Scalars(p.value.elems))))
      && Lists(pairs) == if found then 0 else 1
  {
    hide Scalars;
    if pairs != [] {
      DirectivesAre(pairs[1..], found);
      DirectivesAre(pairs[1..], true);
      assert pairs == [pairs[0]] + pairs[1..];
    }
  }

  predicate PoolPair(p: Pair) {
    p.key.Scalar? && p.value.Map? && Directives(p.value.pairs, false)
  }

  predicate Pools(pairs: seq<Pair>) {
    forall p :: p in pairs ==> PoolPair(p)
  }

  predicate Conforms(doc: Node) {
    doc.Map? && Pools(doc.pairs)
  }

  // ---------- the validator ----------

  /** Its variables. The counters are not cleared on the way down. The last one says that
      an end came without its start, for which the source has no case. */
  datatype Check = Check(depth: nat, list: bool, count: seq<nat>, error: bool, done: bool, broken: bool)

  const START := Check(0, false, [0, 0, 0], false, false, false)

  predicate Going(s: Check) {
    !s.error && !s.done && !s.broken && s.depth <= MAX_DEPTH && |s.count| == 3
  }

  /** What one event does. */
  function Step(s: Check, e: Event): (r: Check)
    requires Going(s)
    ensures Going(r) || r.error || r.done || r.broken
  {
    var c := s.count;
    match e
    case StreamStart => s
    case DocumentStart => s
    case DocumentEnd => s
    case StreamEnd => s.(done := true)
    case MapStart =>
      s.(depth := s.depth + 1, error := (s.depth == ROOT_DEPTH && c[s.depth] != 1) || s.depth >= MAX_DEPTH)
    case MapEnd =>
      if s.depth == 0 then s.(broken := true)
      else if s.depth == MAX_DEPTH then s.(depth := 1, count := c[1 := 0], list := false, error := !s.list)
      else s.(depth := 0, count := c[0 := 0])
    case SeqStart =>
      s.(list := true, error := s.list || s.depth != MAX_DEPTH || c[s.depth] != 1)
    case SeqEnd =>
      if s.depth != MAX_DEPTH then s.(broken := true) else s.(count := c[s.depth := 0])
    case Text(_) =>
      if s.depth == 0 || (s.depth == ROOT_DEPTH && c[s.depth] != 0) then
        s.(error := true, count := c[s.depth := c[s.depth] + 1])
      else if s.depth == MAX_DEPTH && c[s.depth] == 2 then s.(count := c[s.depth := 1])
      else s.(count := c[s.depth := c[s.depth] + 1])
  }

  function Run(s: Check, es: seq<Event>): Check
    decreases |es|
  {
    if es == [] || !Going(s) then s else Run(Step(s, es[0]), es[1..])
  }

  lemma {:induction false} RunConcat(s: Check, es: seq<Event>, fs: seq<Event>)
    ensures Run(s, es + fs) == Run(Run(s, es), fs)
    decreases |es|
  {
    if es == [] {
      assert es + fs == fs;
    } else if Going(s) {
      RunConcat(Step(s, es[0]), es[1..], fs);
      assert (es + fs)[1..] == es[1..] + fs;
    }
  }

  lemma RunOne(s: Check, e: Event)
    ensures Run(s, [e]) == if Going(s) then Step(s, e) else s
  {
    assert [e][1..] == [];
    if Going(s) {
      assert Run(Step(s, e), []) == Step(s, e);
    }
  }

  /** Inside a list: only scalars pass. */
  lemma {:induction false} RunElems(s: Check, elems: seq<Node>)
    requires Going(s) && s.depth == MAX_DEPTH && s.list && s.count[2] <= 2
    ensures
      var r := Run(s, ElemEvents(elems));
      if Scalars(elems) then
        Going(r) && r.depth == MAX_DEPTH && r.list && r.count[2] <= 2 && r.count[..2] == s.count[..2]
      else r.error
    decreases |elems|
  {
    if elems != [] {
      var e := elems[0];
      RunConcat(s, Events(e), ElemEvents(elems[1..]));
      FirstEvent(s, e);
      if e.Scalar? {
        RunOne(s, Text(e.text));
        RunElems(Step(s, Text(e.text)), elems[1..]);
      }
    }
  }

  /** What the first event of a node does where it does not belong. */
  lemma FirstEvent(s: Check, node: Node)
    requires Going(s)
    ensures Events(node) != []
    ensures node.Map? && (s.depth == 2 || (s.depth == 1 && s.count[1] != 1)) ==> Run(s, Events(node)).error
    ensures node.Seq? && (s.depth != 2 || s.list || s.count[2] != 1) ==> Run(s, Events(node)).error
    ensures node.Scalar? && (s.depth == 0 || (s.depth == 1 && s.count[1] != 0)) ==> Run(s, Events(node)).error
  {
  }

  /** Between two directives. */
  predicate Paired(s: Check) {
    Going(s) && s.depth == MAX_DEPTH && (s.count[2] == 0 || s.count[2] == 2)
  }

  /** A list as the value of a directive. */
  lemma RunList(s: Check, elems: seq<Node>)
    requires Going(s) && s.depth == MAX_DEPTH && s.count[2] == 1
    ensures
      var r := Run(s, Events(Seq(elems)));
      if !s.list && Scalars(elems) then Paired(r) && r.list && r.count[..2] == s.count[..2] else r.error
  {
    FirstEvent(s, Seq(elems));
    if !s.list {
      var t := Step(s, SeqStart);
      assert Events(Seq(elems)) == [SeqStart] + (ElemEvents(elems) + [SeqEnd]);
      RunConcat(s, [SeqStart], ElemEvents(elems) + [SeqEnd]);
      RunOne(s, SeqStart);
      RunElems(t, elems);
      RunConcat(t, ElemEvents(elems), [SeqEnd]);
      RunOne(Run(t, ElemEvents(elems)), SeqEnd);
    }
  }

  /** One directive. */
  lemma RunDirective(s: Check, key: Node, value: Node)
    requires Paired(s)
    ensures
      var r := Run(s, Events(key) + Events(value));
      if key.Scalar? && (value.Scalar? || (value.Seq? && !s.list && Scalars(value.elems))) then
        Paired(r) && r.list == (s.list || value.Seq?) && r.count[..2] == s.count[..2]
      else r.error
  {
    RunConcat(s, Events(key), Events(value));
    FirstEvent(s, key);
    if key.Scalar? {
      var t := Step(s, Text(key.text));
      RunOne(s, Text(key.text));
      FirstEvent(t, value);
      match value {
        case Scalar(text) => RunOne(t, Text(text));
        case Seq(elems) => RunList(t, elems);
        case Map(_) =>
      }
    }
  }

  /** The directives of a pool, up to their end. */
  lemma {:induction false} RunPool(s: Check, pairs: seq<Pair>)
    requires Paired(s)
    ensures
      var r := Run(s, PairEvents(pairs) + [MapEnd]);
      if Directives(pairs, s.list) then
        Going(r) && r.depth == 1 && !r.list && r.count[1] == 0 && (r.count[2] == 0 || r.count[2] == 2)
      else r.error
    decreases |pairs|
  {
    hide Events;
    if pairs == [] {
      assert PairEvents(pairs) + [MapEnd] == [MapEnd];
      RunOne(s, MapEnd);
      EndOfPool(s);
    } else {
      var p := pairs[0];
      var first, rest := Events(p.key) + Events(p.value), PairEvents(pairs[1..]) + [MapEnd];
      assert PairEvents(pairs) + [MapEnd] == first + rest;
      RunConcat(s, first, rest);
      RunDirective(s, p.key, p.value);
      var t := Run(s, first);
      if t.error {
        Stopped(t, rest);
      } else {
        RunPool(t, pairs[1..]);
      }
    }
  }

  lemma EndOfPool(s: Check)
    requires Paired(s)
    ensures Going(s)
    ensures var r := Step(s, MapEnd);
      if s.list then Going(r) && r.depth == 1 && !r.list && r.count[1] == 0 && r.count[2] == s.count[2] else r.error
  {
  }

  lemma Stopped(s: Check, es: seq<Event>)
    requires s.error
    ensures Run(s, es) == s
  {
  }

  /** Between two pools. */
  predicate AtRoot(s: Check) {
    Going(s) && s.depth == 1 && !s.list && s.count[1] == 0 && (s.count[2] == 0 || s.count[2] == 2)
  }

  lemma RunPoolPair(s: Check, p: Pair)
    requires AtRoot(s)
    ensures
      var r := Run(s, Events(p.key) + Events(p.value));
      if PoolPair(p) then AtRoot(r) else r.error
  {
    RunConcat(s, Events(p.key), Events(p.value));
    FirstEvent(s, p.key);
    if p.key.Scalar? {
      var t := Step(s, Text(p.key.text));
      RunOne(s, Text(p.key.text));
      FirstEvent(t, p.value);
      if p.value.Map? {
        var inside := PairEvents(p.value.pairs) + [MapEnd];
        assert Events(p.value) == [MapStart] + inside;
        RunConcat(t, [MapStart], inside);
        RunOne(t, MapStart);
        RunPool(Step(t, MapStart), p.value.pairs);
      }
    }
  }

  lemma {:induction false} RunPools(s: Check, pairs: seq<Pair>)
    requires AtRoot(s)
    ensures
      var r := Run(s, PairEvents(pairs) + [MapEnd]);
      if Pools(pairs) then Going(r) && r.depth == 0 else r.error
    decreases |pairs|
  {
    hide Events, Directives;
    if pairs == [] {
      assert PairEvents(pairs) + [MapEnd] == [MapEnd];
      RunOne(s, MapEnd);
    } else {
      var p := pairs[0];
      var first, rest := Events(p.key) + Events(p.value), PairEvents(pairs[1..]) + [MapEnd];
      assert PairEvents(pairs) + [MapEnd] == first + rest;
      RunConcat(s, first, rest);
      RunPoolPair(s, p);
      PoolsFirst(pairs);
      var t := Run(s, first);
      if t.error {
        Stopped(t, rest);
      } else {
        RunPools(t, pairs[1..]);
      }
    }
  }

  lemma PoolsFirst(pairs: seq<Pair>)
    requires pairs != []
    ensures Pools(pairs) <==> PoolPair(pairs[0]) && Pools(pairs[1..])
  {
    assert pairs == [pairs[0]] + pairs[1..];
  }

  lemma RunDoc(doc: Node)
    ensures
      var r := Run(START, Events(doc));
      if Conforms(doc) then Going(r) else r.error
  {
    hide Pools;
    FirstEvent(START, doc);
    if doc.Map? {
      var inside := PairEvents(doc.pairs) + [MapEnd];
      assert Events(doc) == [MapStart] + inside;
      RunConcat(START, [MapStart], inside);
      RunOne(START, MapStart);
      RunPools(Step(START, MapStart), doc.pairs);
    }
  }

  lemma {:induction false} NotBoth(s: Check, es: seq<Event>)
    requires !s.error
    ensures !Run(s, es).error || !Run(s, es).broken
    decreases |es|
  {
    if es != [] && Going(s) {
      var t := Step(s, es[0]);
      if !t.error {
        NotBoth(t, es[1..]);
      }
    }
  }

  /** The validator accepts exactly the documents that conform, and meets no end without
      its start in any document. */
  lemma Accepts(doc: Node)
    ensures
      var r := Run(START, Stream(doc));
      !r.broken && (Conforms(doc) ==> r.done && !r.error) && (!Conforms(doc) ==> r.error)
  {
    hide Conforms, Events;
    NotBoth(START, Stream(doc));
    var before, after := [StreamStart, DocumentStart], [DocumentEnd, StreamEnd];
    assert Stream(doc) == before + (Events(doc) + after);
    RunConcat(START, before, Events(doc) + after);
    assert before == [StreamStart] + [DocumentStart];
    RunConcat(START, [StreamStart], [DocumentStart]);
    RunOne(START, StreamStart);
    RunOne(START, DocumentStart);
    RunConcat(START, Events(doc), after);
    RunDoc(doc);
    var t := Run(START, Events(doc));
    if t.error {
      Stopped(t, after);
    } else {
      assert after == [DocumentEnd] + [StreamEnd];
      RunConcat(t, [DocumentEnd], [StreamEnd]);
      RunOne(t, DocumentEnd);
      RunOne(t, StreamEnd);
    }
  }

  /** conf_validate_structure, on the events of a document. */
  method Validate(events: seq<Event>, ghost doc: Node) returns (ok: bool)
    requires events == Stream(doc)
    ensures ok <==> Conforms(doc)
  {
    hide Run, Conforms, Events, Stream;
    Accepts(doc);
    var done, error, list, depth := false, false, false, 0;
    var count := new nat[3](_ => 0);
    var next := 0;
    ghost var s := START;
    assert events[0..] == events;
    while !done && !error
      invariant 0 <= next <= |events| && s == Check(depth, list, count[..], error, done, false) && count.Length == 3
      invariant Run(s, events[next..]) == Run(START, events) && (Going(s) || error || done)
      decreases |events| - next
    {
      RunHead(s, events, next);
      var event := events[next];
      match event {
        case StreamStart =>
        case DocumentStart =>
        case DocumentEnd =>
        case StreamEnd => done := true;
        case MapStart =>
          if depth == ROOT_DEPTH && count[depth] != 1 {
            error := true;
          } else if depth >= MAX_DEPTH {
            error := true;
          }
          depth := depth + 1;
        case MapEnd =>
          if depth == MAX_DEPTH {
            if list {
              list := false;
            } else {
              error := true;
            }
          }
          depth := depth - 1;
          count[depth] := 0;
        case SeqStart =>
          if list {
            error := true;
          } else if depth != MAX_DEPTH {
            error := true;
          } else if count[depth] != 1 {
            error := true;
          }
          list := true;
        case SeqEnd => count[depth] := 0;
        case Text(_) =>
          if depth == 0 {
            error := true;
          } else if depth == ROOT_DEPTH && count[depth] != 0 {
            error := true;
          } else if depth == MAX_DEPTH && count[depth] == 2 {
            count[depth] := 0;
          }
          count[depth] := count[depth] + 1;
      }
      s := Step(s, event);
      next := next + 1;
    }
    RunEnd(s, events[next..]);
    ok := !error;
  }

  /** A run that is not over has an event left, and no end without its start. */
  lemma RunHead(s: Check, events: seq<Event>, next: nat)
    requires Going(s) && next <= |events| && (Run(s, events[next..]).done || Run(s, events[next..]).error)
    requires !Run(s, events[next..]).broken
    ensures next < |events| && !Step(s, events[next]).broken
    ensures Run(s, events[next..]) == Run(Step(s, events[next]), events[next + 1..])
  {
    if next < |events| {
      assert events[next..][1..] == events[next + 1..];
    }
  }

  lemma RunEnd(s: Check, es: seq<Event>)
    requires !Going(s)
    ensures Run(s, es) == s
  {
  }
}
