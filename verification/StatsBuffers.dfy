/** The three metric arrays of src/gf_stats.c: the generator thread updates current and
    now and then swaps it with shadow; the aggregator thread adds shadow to sum. A metric
    is known by its place in the list of all metrics of all pools and servers. */
module StatsBuffers {
  datatype Kind = Counter | Gauge | Timestamp

  /** The latest of three readings of a timestamp; zero is no reading. */
  function Overlay(current: int, shadow: int, sum: int): int {
    if current != 0 then current else if shadow != 0 then shadow else sum
  }

  /** No update is lost and none is counted twice; of a timestamp, the three arrays show
      one reading, and without current the one shown at the last swap. */
  ghost predicate MetricOk(
    kind: Kind, current: int, shadow: int, sum: int, waiting: bool, total: int, shown: int, handed: int)
  {
    if kind.Timestamp? then
      && Overlay(current, shadow, sum) == shown && Overlay(0, shadow, sum) == handed
      && (!waiting && shadow != 0 ==> sum == shadow)
    else sum + (if waiting then shadow else 0) + current == total
  }

  // ---------- what a run comes to, told from its events alone ----------

  /** What the two threads do: the generator updates metrics and swaps, the aggregator
      takes its next step. */
  datatype Event = Change(i: nat, val: int) | Time(i: nat, val: int) | Exchange | AggregatorStep

  predicate Legal(kinds: seq<Kind>, e: Event) {
    match e
    case Change(i, _) => i < |kinds| && !kinds[i].Timestamp?
    case Time(i, _) => i < |kinds| && kinds[i].Timestamp?
    case _ => true
  }

  /** The two flags, whether the aggregator is in its loop, and how far. */
  datatype Control = Control(updated: bool, aggregate: bool, running: bool, at: nat)

  /** A swap happens when there is something new and the aggregator has no work. */
  predicate Swaps(c: Control) {
    c.updated && !c.aggregate
  }

  ghost function After(c: Control, e: Event, n: nat): Control {
    match e
    case Change(_, _) => c.(updated := true)
    case Time(_, _) => c.(updated := true)
    case Exchange => if Swaps(c) then c.(updated := false, aggregate := true) else c
    case AggregatorStep =>
      if !c.running then c.(running := c.aggregate)
      else if c.at < n then c.(at := c.at + 1)
      else c.(running := false, aggregate := false, at := 0)
  }

  ghost function Controls(events: seq<Event>, n: nat): Control {
    if events == [] then Control(false, false, false, 0)
    else After(Controls(events[..|events| - 1], n), events[|events| - 1], n)
  }

  /** The sum of all updates of metric i. */
  ghost function Changes(events: seq<Event>, i: nat): int {
    if events == [] then 0
    else
      var e := events[|events| - 1];
      Changes(events[..|events| - 1], i) + if e.Change? && e.i == i then e.val else 0
  }

  /** The last time set for metric i, other than zero. */
  ghost function LastTime(events: seq<Event>, i: nat): int {
    if events == [] then 0
    else
      var e := events[|events| - 1];
      if e.Time? && e.i == i && e.val != 0 then e.val else LastTime(events[..|events| - 1], i)
  }

  /** The time shown for metric i: setting zero brings back what the last swap handed over. */
  ghost function Shown(events: seq<Event>, n: nat, i: nat): int {
    if events == [] then 0
    else
      var e, before := events[|events| - 1], events[..|events| - 1];
      if !(e.Time? && e.i == i) then Shown(before, n, i)
      else if e.val != 0 then e.val
      else Handed(before, n, i)
  }

  /** The time shown for metric i when arrays were swapped last. */
  ghost function Handed(events: seq<Event>, n: nat, i: nat): int {
    if events == [] then 0
    else
      var e, before := events[|events| - 1], events[..|events| - 1];
      if e.Exchange? && Swaps(Controls(before, n)) then Shown(before, n, i) else Handed(before, n, i)
  }

  /** Was the last time set for metric i set to zero before it was handed over? */
  ghost predicate TakenBack(events: seq<Event>, n: nat, i: nat) {
    if events == [] then false
    else
      var e, before := events[|events| - 1], events[..|events| - 1];
      if !(e.Time? && e.i == i) then TakenBack(before, n, i)
      else e.val == 0 && (TakenBack(before, n, i) || Shown(before, n, i) != Handed(before, n, i))
  }

  /** The time shown is the last that was set, exactly when that was not taken back. */
  lemma {:induction false} LastShown(events: seq<Event>, n: nat, i: nat)
    ensures Shown(events, n, i) == LastTime(events, i) <==> !TakenBack(events, n, i)
    ensures TakenBack(events, n, i) ==> Shown(events, n, i) == Handed(events, n, i)
  {
    if events != [] {
      LastShown(events[..|events| - 1], n, i);
    }
  }

  /** When no time is ever set to zero, none is taken back. */
  lemma {:induction false} NeverTakenBack(events: seq<Event>, n: nat, i: nat)
    requires Time(i, 0) !in events
    ensures !TakenBack(events, n, i)
  {
    if events != [] {
      NeverTakenBack(events[..|events| - 1], n, i);
      assert events[|events| - 1] in events;
    }
  }

  class Stats {
    const kinds: seq<Kind>
    var current: array<int>      // (a) written by the generator
    var shadow: array<int>       // (b) handed over
    const sum: array<int>        // (c) written by the aggregator
    var aggregate: bool
    var updated: bool
    var running: bool            // the aggregator is in its loop,
    var at: nat                  // and has done so many metrics of it
    ghost var total: seq<int>    // of all updates of a counter or a gauge
    ghost var last: seq<int>     // the last time set, other than 0,
    ghost var shown: seq<int>    // the time the three arrays show,
    ghost var handed: seq<int>   // and the one they showed at the last swap

    constructor (kinds: seq<Kind>)
      ensures Valid() && this.kinds == kinds && total == last == shown == handed == seq(|kinds|, _ => 0)
      ensures Now() == Control(false, false, false, 0)
      ensures fresh(current) && fresh(shadow) && fresh(sum)
    {
      this.kinds := kinds;
      current, shadow, sum := new int[|kinds|](_ => 0), new int[|kinds|](_ => 0), new int[|kinds|](_ => 0);
      aggregate, updated, running, at := false, false, false, 0;
      total, last := seq(|kinds|, _ => 0), seq(|kinds|, _ => 0);
      shown, handed := last, last;
    }

    ghost predicate Shaped()
      reads this
    {
      && current != shadow && current != sum && shadow != sum
      && current.Length == shadow.Length == sum.Length == |kinds|
      && |total| == |last| == |shown| == |handed| == |kinds|
      && at <= |kinds| && (running ==> aggregate) && (!running ==> at == 0)
    }

    ghost function Now(): Control
      reads `updated, `aggregate, `running, `at
    {
      Control(updated, aggregate, running, at)
    }

    /** Is metric i of shadow still to be added to sum? */
    ghost predicate Waiting(i: int)
      reads `aggregate, `at
    {
      aggregate && i >= at
    }

    ghost predicate Valid()
      reads this, current, shadow, sum
    {
      && Shaped()
      && (forall i :: 0 <= i < |kinds| ==>
           MetricOk(kinds[i], current[i], shadow[i], sum[i], Waiting(i), total[i], shown[i], handed[i]))
      && (!updated ==> forall i :: 0 <= i < |kinds| ==> current[i] == 0)
    }

    /** incr, decr, incr_by and decr_by */
    method Add(i: nat, val: int)
      requires Valid() && i < |kinds| && !kinds[i].Timestamp?
      modifies `updated, `total, current
      ensures Valid() && updated && total == old(total)[i := old(total)[i] + val]
    {
      updated := true;
      current[i] := current[i] + val;
      total := total[i := total[i] + val];
    }

    /** set_ts. Setting zero takes back what was set since the last swap: the time handed
        over then is shown again. The last time set is lost if that is another one. */
    method SetTs(i: nat, val: int)
      requires Valid() && i < |kinds| && kinds[i].Timestamp?
      modifies `updated, `last, `shown, current
      ensures Valid() && current[..] == old(current[..])[i := val] && updated
      ensures last == if val != 0 then old(last)[i := val] else old(last)
      ensures shown == old(shown)[i := if val != 0 then val else handed[i]]
      ensures old(shown[i] == last[i]) ==>
        (shown[i] == last[i] <==> val != 0 || old(current[i]) == 0 || old(current[i]) == Overlay(0, shadow[i], sum[i]))
    {
      assert MetricOk(kinds[i], current[i], shadow[i], sum[i], Waiting(i), total[i], shown[i], handed[i]);
      updated := true;
      current[i] := val;
      shown := shown[i := if val != 0 then val else handed[i]];
      if val != 0 {
        last := last[i := val];
      }
    }

    /** stats_swap: nothing happens while the aggregator has work, or when there is
        nothing new; otherwise current goes over and starts again from zero. */
    method Swap()
      requires Valid()
      modifies `current, `shadow, `updated, `aggregate, `handed, current, shadow
      ensures Valid() && handed == if old(Swaps(Now())) then shown else old(handed)
      ensures old(aggregate) || !old(updated) ==>
        current == old(current) && shadow == old(shadow) && aggregate == old(aggregate) && updated == old(updated)
      ensures !old(aggregate) && old(updated) ==>
        && aggregate && !updated && current == old(shadow) && shadow == old(current)
        && shadow[..] == old(current[..]) && forall i :: 0 <= i < |kinds| ==> current[i] == 0
    {
      if aggregate {
        return;
      }
      if !updated {
        return;
      }
      current, shadow := shadow, current;
      var i := 0;
      while i < current.Length
        invariant 0 <= i <= current.Length && current == old(shadow)
        invariant forall k :: 0 <= k < i ==> current[k] == 0
        modifies current
      {
        current[i] := 0;
        i := i + 1;
      }
      updated := false;
      aggregate := true;
      handed := shown;
    }

    /** The aggregator finds the flag set and enters its loop. */
    method Begin() returns (busy: bool)
      requires Valid() && !running
      modifies `running
      ensures Valid() && busy == aggregate == running && at == 0
    {
      busy := aggregate;
      running := busy;
    }

    /** One metric is aggregated. */
    method AggregateMetric(i: nat)
      requires Valid() && running && i == at < |kinds|
      modifies `at, sum
      ensures Valid() && running && at == i + 1
      ensures !kinds[i].Timestamp? ==> sum[i] == old(sum[i]) + shadow[i]
      ensures forall k :: 0 <= k < |kinds| && k != i ==> sum[k] == old(sum[k])
    {
      match kinds[i] {
        case Counter => sum[i] := sum[i] + shadow[i];
        case Gauge => sum[i] := sum[i] + shadow[i];
        case Timestamp =>
          if shadow[i] != 0 {
            sum[i] := shadow[i];
          }
      }
      at := at + 1;
    }

    /** The aggregator gives the flag back. */
    method End()
      requires Valid() && running && at == |kinds|
      modifies `running, `at, `aggregate
      ensures Valid() && !running && !aggregate
    {
      aggregate, running, at := false, false, 0;
    }

    /** stats_aggregate, when the generator does nothing in between. */
    method Aggregate()
      requires Valid() && !running
      modifies `running, `at, `aggregate, sum
      ensures Valid() && !running && !aggregate
      ensures forall i :: 0 <= i < |kinds| ==>
        if kinds[i].Timestamp? then Overlay(current[i], 0, sum[i]) == shown[i] else sum[i] == total[i] - current[i]
    {
      var busy := Begin();
      if busy {
        for i := 0 to |kinds|
          invariant Valid() && running && at == i && aggregate
        {
          AggregateMetric(i);
        }
        End();
      }
    }

    /** One step of either thread. */
    method Step(e: Event)
      requires Valid() && Legal(kinds, e)
      modifies this, current, shadow, sum
      ensures Valid() && {current, shadow} == old({current, shadow}) && Now() == After(old(Now()), e, |kinds|)
      ensures total == if e.Change? then old(total)[e.i := old(total)[e.i] + e.val] else old(total)
      ensures last == if e.Time? && e.val != 0 then old(last)[e.i := e.val] else old(last)
      ensures shown == if e.Time? then old(shown)[e.i := if e.val != 0 then e.val else old(handed)[e.i]] else old(shown)
      ensures handed == if e.Exchange? && Swaps(old(Now())) then old(shown) else old(handed)
    {
      match e {
        case Change(i, val) => Add(i, val);
        case Time(i, val) => SetTs(i, val);
        case Exchange => Swap();
        case AggregatorStep =>
          if !running {
            var busy := Begin();
          } else if at < |kinds| {
            AggregateMetric(at);
          } else {
            End();
          }
      }
    }

    /** What is known of every metric after some events. */
    ghost predicate Accounts(events: seq<Event>)
      reads this
    {
      && |total| == |last| == |shown| == |handed| == |kinds| && Now() == Controls(events, |kinds|)
      && forall i :: 0 <= i < |kinds| ==>
           && total[i] == Changes(events, i) && last[i] == LastTime(events, i)
           && shown[i] == Shown(events, |kinds|, i) && handed[i] == Handed(events, |kinds|, i)
    }

    method Advance(ghost events: seq<Event>, e: Event)
      requires Valid() && Legal(kinds, e) && Accounts(events)
      modifies this, current, shadow, sum
      ensures Valid() && {current, shadow} == old({current, shadow}) && Accounts(events + [e])
    {
      hide Valid, After, Swaps;
      Step(e);
      assert (events + [e])[..|events|] == events;
    }
  }

  /** Every interleaving of the two threads: what is in sum, what is in shadow and not yet
      in sum, and what is in current is all that was ever added; and the three arrays laid
      over one another show the last time that was set, unless that was taken back. */
  method Run(kinds: seq<Kind>, events: seq<Event>) returns (st: Stats)
    requires forall e :: e in events ==> Legal(kinds, e)
    ensures st.Valid() && st.kinds == kinds && st.Now() == Controls(events, |kinds|)
    ensures forall i :: 0 <= i < |kinds| && !kinds[i].Timestamp? ==>
      st.sum[i] + (if st.Waiting(i) then st.shadow[i] else 0) + st.current[i] == Changes(events, i)
    ensures forall i :: 0 <= i < |kinds| && kinds[i].Timestamp? ==>
      && Overlay(st.current[i], st.shadow[i], st.sum[i]) == Shown(events, |kinds|, i)
      && (Overlay(st.current[i], st.shadow[i], st.sum[i]) == LastTime(events, i) <==> !TakenBack(events, |kinds|, i))
  {
    st := new Stats(kinds);
    var k := 0;
    assert events[..0] == [];
    while k < |events|
      invariant 0 <= k <= |events| && fresh(st) && fresh(st.current) && fresh(st.shadow) && fresh(st.sum)
      invariant st.Valid() && st.kinds == kinds && st.Accounts(events[..k])
    {
      st.Advance(events[..k], events[k]);
      assert events[..k] + [events[k]] == events[..k + 1];
      k := k + 1;
    }
    assert events[..k] == events;
    forall i | 0 <= i < |kinds|
      ensures MetricOk(
        kinds[i], st.current[i], st.shadow[i], st.sum[i], st.Waiting(i), Changes(events, i),
        Shown(events, |kinds|, i), Handed(events, |kinds|, i))
    {
    }
    forall i | 0 <= i < |kinds|
      ensures Shown(events, |kinds|, i) == LastTime(events, i) <==> !TakenBack(events, |kinds|, i)
    {
      LastShown(events, |kinds|, i);
    }
  }

  /** A time that is set and then set to zero before the next swap is gone. */
  method ZeroTakesBack(time: int) returns (st: Stats)
    requires time != 0
    ensures st.Valid() && st.kinds == [Timestamp] && st.last == [time] && st.shown == [0]
    ensures Overlay(st.current[0], st.shadow[0], st.sum[0]) == 0
  {
    st := new Stats([Timestamp]);
    st.SetTs(0, time);
    st.SetTs(0, 0);
    assert MetricOk(Timestamp, st.current[0], st.shadow[0], st.sum[0], false, 0, st.shown[0], st.handed[0]);
  }
}
