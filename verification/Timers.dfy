/** Request deadlines: msg_tmo_insert, msg_tmo_min and msg_tmo_delete of
    src/gf_message.c over the red-black tree, and core_timeout of src/gf_core.c. */
module Timers {
  import opened RbShape
  import opened RbTree

  const ETIMEDOUT := 110

  class Conn {
    var err: int
    const timeout: int      // of the pool that owns the server; negative means none

    constructor (timeout: int)
      ensures this.timeout == timeout && err == 0
    {
      this.timeout, err := timeout, 0;
    }
  }

  class Msg {
    const node: RbNode      // the embedded tree node
    var error: bool
    var done: bool

    constructor (node: RbNode)
      ensures this.node == node && !error && !done
    {
      this.node, error, done := node, false, false;
    }
  }

  class Queue {
    const tree: Tree
    var owner: map<RbNode, Msg>   // which message a node is embedded in

    constructor (sentinel: RbNode)
      modifies sentinel
      ensures Valid() && fresh(tree) && Deadlines() == [] && owner == map[]
    {
      tree := new Tree(sentinel);
      owner := map[];
    }

    /** The timers in order of their deadlines. */
    ghost function Deadlines(): seq<RbNode>
      reads tree
    {
      tree.Order()
    }

    /** A node's data pointer is set exactly while the node is among ds. */
    ghost predicate Consistent(ds: seq<RbNode>)
      reads this, ds`data, owner.Keys`data
    {
      && (forall n :: n in ds ==> n in owner && n.data is Conn)
      && (forall n :: n in owner ==> owner[n].node == n && n != tree.sentinel && (n.data != null <==> n in ds))
    }

    ghost predicate Valid()
      reads this, tree, tree.mem.Keys, tree.Order(), owner.Keys
    {
      tree.Valid() && Consistent(Deadlines())
    }

    /** The timers that are running, with deadline and connection. */
    ghost function Pending(): map<RbNode, (int, object?)>
      reads tree, tree.Order()`key, tree.Order()`data
    {
      map n | n in tree.Order() :: (n.key, n.data)
    }

    /** msg_get: a message joins, with its node not in the tree. */
    method Register(msg: Msg)
      requires Valid() && msg.node !in owner && msg.node != tree.sentinel && msg.node.data == null
      modifies this`owner
      ensures Valid() && owner == old(owner)[msg.node := msg] && Deadlines() == old(Deadlines())
    {
      owner := owner[msg.node := msg];
    }

    /** msg_tmo_min */
    method TmoMin() returns (msg: Msg?)
      requires Valid()
      ensures Deadlines() == [] ==> msg == null
      ensures Deadlines() != [] ==>
        msg != null && msg.node == Deadlines()[0] && msg.node in owner && owner[msg.node] == msg
      ensures Valid() && Pending() == old(Pending()) && (msg == null <==> Pending() == map[])
      ensures msg != null ==> msg.node in Pending() && forall n :: n in Pending() ==> msg.node.key <= Pending()[n].0
    {
      hide Inorder, Nodes, tree.Valid;
      tree.OrderFacts();
      var node, steps := tree.Min();
      if node == null {
        msg := null;
      } else {
        msg := owner[node];
        tree.OrderFacts();
        assert node in Pending();
      }
    }

    /** The connection of a running timer. */
    lemma MinData(node: RbNode)
      requires Valid() && node in Pending()
      ensures node.data is Conn && Pending()[node] == (node.key, node.data)
    {
      hide Inorder, Nodes, tree.Valid;
    }

    /** msg_tmo_delete; a second call finds the data pointer cleared and does nothing. */
    method TmoDelete(msg: Msg)
      requires Valid() && msg.node in owner
      modifies tree, tree.mem.Keys
      ensures Valid() && tree.mem.Keys <= old(tree.mem.Keys)
      ensures Deadlines() == Without(old(Deadlines()), msg.node)
      ensures Pending() == old(Pending()) - {msg.node}
    {
      hide Inorder, Nodes, tree.Valid, Without, Pending;
      tree.OrderFacts();
      WithoutAbsent(Deadlines(), msg.node);
      NotPending(msg.node);
      if msg.node.data != null {
        ghost var before, after := Drop(msg.node);
        WithoutPresent(before, msg.node, after);
      }
    }

    lemma NotPending(n: RbNode)
      ensures n !in Deadlines() ==> Pending() - {n} == Pending()
    {
      hide Inorder;
    }

    method Drop(node: RbNode) returns (ghost before: seq<RbNode>, ghost after: seq<RbNode>)
      requires Valid() && node in Deadlines() && node in owner
      modifies tree, tree.mem.Keys
      ensures Valid() && tree.mem.Keys <= old(tree.mem.Keys)
      ensures old(Deadlines()) == before + [node] + after && Deadlines() == before + after
      ensures NoDuplicates(before + [node] + after)
      ensures Pending() == old(Pending()) - {node}
    {
      hide Inorder, Nodes, Valid, Consistent, NoDuplicates;
      ghost var pending := Pending();
      InUse();
      before, after := Unhook(node);
      InsertMembers(before, node, after);
      AbsentAround(before, node, after);
      forall n | n in Deadlines() ensures n in pending && pending[n] == (n.key, n.data) {
        assert n in old(Deadlines()) && n in old(tree.mem) && n != node;
        assert n.key == old(n.key) && n.data == old(n.data);
        assert pending[n] == (old(n.key), old(n.data));
      }
    }

    lemma InUse()
      requires Valid()
      ensures forall n :: n in Deadlines() ==> n in tree.mem
    {
      hide Inorder, Nodes, tree.Valid;
      tree.OrderFacts();
    }

    method Unhook(node: RbNode) returns (ghost before: seq<RbNode>, ghost after: seq<RbNode>)
      requires Valid() && node in Deadlines() && node in owner
      modifies tree, tree.mem.Keys`left, tree.mem.Keys`right, tree.mem.Keys`parent, tree.mem.Keys`red, node`key,
        node`data
      ensures Valid() && tree.mem.Keys <= old(tree.mem.Keys)
      ensures old(Deadlines()) == before + [node] + after && Deadlines() == before + after
      ensures NoDuplicates(before + [node] + after)
    {
      hide Inorder, Nodes, tree.Valid, NoDuplicates;
      tree.OrderFacts();
      before, after := tree.Delete(node);
      AbsentAround(before, node, after);
      InsertMembers(before, node, after);
    }

    /** msg_tmo_insert: the deadline is one timeout from now, behind every deadline
        that is not later. A negative timeout means no deadline. */
    method TmoInsert(msg: Msg, conn: Conn, now: int)
      returns (ghost before: seq<RbNode>, ghost after: seq<RbNode>)
      requires Valid() && msg.node in owner && msg.node !in Deadlines()
      modifies tree, tree.mem.Keys, msg.node
      ensures Valid()
      ensures conn.timeout < 0 ==> Deadlines() == old(Deadlines()) && msg.node.data == old(msg.node.data)
      ensures conn.timeout >= 0 ==>
        && msg.node.key == now + conn.timeout && msg.node.data == conn
        && old(Deadlines()) == before + after && Deadlines() == before + [msg.node] + after
        && (forall n :: n in before ==> n.key <= now + conn.timeout)
        && (forall n :: n in after ==> n.key > now + conn.timeout)
      ensures Pending() ==
        if conn.timeout < 0 then old(Pending()) else old(Pending())[msg.node := (now + conn.timeout, conn)]
    {
      if conn.timeout < 0 {
        before, after := [], [];
      } else {
        before, after := Arm(msg.node, conn, now + conn.timeout);
      }
    }

    method Arm(node: RbNode, conn: Conn, deadline: int)
      returns (ghost before: seq<RbNode>, ghost after: seq<RbNode>)
      requires Valid() && node in owner && node !in Deadlines()
      modifies tree, tree.mem.Keys, node`left, node`right, node`parent, node`red, node`key, node`data
      ensures Valid() && node.key == deadline && node.data == conn
      ensures old(Deadlines()) == before + after && Deadlines() == before + [node] + after
      ensures Bounds(before, after, deadline) && Pending() == old(Pending())[node := (deadline, conn)]
    {
      hide Inorder, Nodes, tree.Valid, Bounds, Pending, tree.Order, Consistent;
      ghost var p := Pending();
      Stamp(node, conn, deadline);
      ghost var ds := Deadlines();
      before, after := tree.Insert(node);
      InsertMembers(before, node, after);
      assert Joining(ds, node, p);
      hide Joining;
      Joined(ds, Deadlines(), node, p);
    }

    /** Everything but node is as it should be when ds are the timers that run. */
    ghost predicate Joining(ds: seq<RbNode>, node: RbNode, p: map<RbNode, Timer>)
      reads `owner, ds`key, ds`data, owner.Keys`data
    {
      && (forall n :: n in ds ==> n in owner && n != node && n.data is Conn)
      && (forall n :: n in owner ==> owner[n].node == n && n != tree.sentinel)
      && (forall n :: n in owner && n != node ==> (n.data != null <==> n in ds))
      && p == map n | n in ds :: (n.key, n.data)
    }

    /** A node that is not in the tree gets its deadline and connection. */
    method Stamp(node: RbNode, conn: Conn, deadline: int)
      requires Valid() && node in owner && node !in Deadlines()
      modifies node`key, node`data
      ensures tree.Valid() && node !in tree.mem && node.key == deadline && node.data == conn
      ensures Joining(Deadlines(), node, old(Pending())) && Deadlines() == old(Deadlines())
    {
      hide Inorder, Nodes, tree.Valid;
      tree.OrderFacts();
      node.key := deadline;
      node.data := conn;
    }

    lemma Joined(was: seq<RbNode>, ds: seq<RbNode>, node: RbNode, p: map<RbNode, Timer>)
      requires Joining(was, node, p) && node in owner && node.data is Conn && ds == Deadlines()
      requires forall x :: x in ds <==> x in was || x == node
      ensures Consistent(ds) && Pending() == p[node := (node.key, node.data)]
    {
      hide tree.Order;
      forall n | n in ds ensures n in owner && n.data is Conn {
        assert n in was || n == node;
      }
      forall n | n in owner ensures n.data != null <==> n in ds {
      }
    }
  }

  class Context {
    var timeout: int
    const maxTimeout: int

    constructor (maxTimeout: int)
      ensures this.maxTimeout == maxTimeout && timeout == maxTimeout
    {
      this.maxTimeout, timeout := maxTimeout, maxTimeout;
    }
  }

  /** The requests going down with a connection are known to the queue. */
  ghost predicate Known(owner: map<RbNode, Msg>, msgs: seq<Msg>) {
    forall m :: m in msgs ==> m.node in owner && owner[m.node] == m
  }

  type Timer = (int, object?)

  ghost predicate Running(pending: map<RbNode, Timer>, conns: set<Conn>) {
    forall n :: n in pending ==> pending[n].1 in conns
  }

  // ---------- what the loop may do ----------

  datatype Flags = Flags(done: bool, error: bool)

  ghost function FlagsOf(owner: map<RbNode, Msg>): (f: map<RbNode, Flags>)
    reads owner.Values`done, owner.Values`error
    ensures f.Keys == owner.Keys
  {
    map n | n in owner :: Flags(owner[n].done, owner[n].error)
  }

  ghost function ErrorsOf(conns: set<Conn>): (e: map<Conn, int>)
    reads conns`err
    ensures e.Keys == conns
  {
    map c | c in conns :: c.err
  }

  /** Timers of requests, flags of requests and errors of connections at one time. */
  datatype State = State(pending: map<RbNode, Timer>, flags: map<RbNode, Flags>, errors: map<Conn, int>)

  ghost predicate Finished(s: State, n: RbNode) {
    n in s.flags && (s.flags[n].done || s.flags[n].error)
  }

  ghost function NodesOf(msgs: seq<Msg>): set<RbNode> {
    set m | m in msgs :: m.node
  }

  /** All these requests are finished with an error. */
  ghost function Failed(flags: map<RbNode, Flags>, msgs: seq<Msg>): map<RbNode, Flags> {
    if msgs == [] then flags else Failed(flags, msgs[..|msgs| - 1])[msgs[|msgs| - 1].node := Flags(true, true)]
  }

  lemma {:induction false} FailedAll(flags: map<RbNode, Flags>, msgs: seq<Msg>)
    requires forall m :: m in msgs ==> m.node in flags
    ensures Failed(flags, msgs).Keys == flags.Keys
    ensures forall n :: n in flags ==>
      Failed(flags, msgs)[n] == if n in NodesOf(msgs) then Flags(true, true) else flags[n]
  {
    if msgs != [] {
      var k := |msgs| - 1;
      FailedAll(flags, msgs[..k]);
      assert forall m :: m in msgs <==> m in msgs[..k] || m == msgs[k];
    }
  }

  ghost function StateOf(q: Queue, conns: set<Conn>): State
    reads q, q.tree, q.tree.Order()`key, q.tree.Order()`data, q.owner.Values`done, q.owner.Values`error, conns`err
  {
    State(q.Pending(), FlagsOf(q.owner), ErrorsOf(conns))
  }

  /** A timer is deleted, and nothing else changes. */
  method Disarm(q: Queue, ghost conns: set<Conn>, m: Msg)
    requires q.Valid() && m.node in q.owner
    modifies q.tree, q.tree.mem.Keys
    ensures q.Valid() && q.tree.mem.Keys <= old(q.tree.mem.Keys)
    ensures StateOf(q, conns) == old(StateOf(q, conns)).(pending := old(q.Pending()) - {m.node})
  {
    hide q.Valid, q.Pending, Without, FlagsOf, ErrorsOf;
    q.TmoDelete(m);
  }

  method SetError(ghost q: Queue, ghost conns: set<Conn>, conn: Conn)
    requires q.Valid() && conn in conns
    modifies conn`err
    ensures q.Valid()
    ensures StateOf(q, conns) == old(StateOf(q, conns)).(errors := old(ErrorsOf(conns))[conn := ETIMEDOUT])
  {
    hide q.Pending, FlagsOf;
    conn.err := ETIMEDOUT;
  }

  method Finish(ghost q: Queue, ghost conns: set<Conn>, m: Msg)
    requires q.Valid() && m.node in q.owner && q.owner[m.node] == m
    modifies m`done, m`error
    ensures q.Valid()
    ensures StateOf(q, conns) ==
      old(StateOf(q, conns)).(flags := old(FlagsOf(q.owner))[m.node := Flags(true, true)])
  {
    hide q.Pending, ErrorsOf;
    Owners(q);
    m.done, m.error := true, true;
  }

  /** A request goes down: its timer is deleted and it is finished with an error. */
  method Fail(q: Queue, ghost conns: set<Conn>, m: Msg)
    requires q.Valid() && m.node in q.owner && q.owner[m.node] == m
    modifies q.tree, q.tree.mem.Keys, m`done, m`error
    ensures q.Valid() && q.tree.mem.Keys <= old(q.tree.mem.Keys)
    ensures
      var s := old(StateOf(q, conns));
      StateOf(q, conns) == s.(pending := s.pending - {m.node}, flags := s.flags[m.node := Flags(true, true)])
  {
    Shows(q, conns);
    hide q.Valid, StateOf, q.Pending, FlagsOf;
    Disarm(q, conns, m);
    Shows(q, conns);
    Finish(q, conns, m);
  }

  lemma Owners(q: Queue)
    requires q.Valid()
    ensures forall n :: n in q.owner ==> q.owner[n].node == n
  {
    hide Inorder, Nodes, q.tree.Valid;
  }

  lemma NoneDown(s: State, msgs: seq<Msg>)
    ensures s == s.(pending := s.pending - NodesOf(msgs[..0]), flags := Failed(s.flags, msgs[..0]))
  {
  }

  lemma OneMoreDown(s: State, msgs: seq<Msg>, i: nat)
    requires i < |msgs|
    ensures
      var node := msgs[i].node;
      && s.pending - NodesOf(msgs[..i + 1]) == s.pending - NodesOf(msgs[..i]) - {node}
      && Failed(s.flags, msgs[..i + 1]) == Failed(s.flags, msgs[..i])[node := Flags(true, true)]
  {
    assert msgs[..i + 1][..i] == msgs[..i];
    assert msgs[..i + 1] == msgs[..i] + [msgs[i]];
    assert NodesOf(msgs[..i + 1]) == NodesOf(msgs[..i]) + {msgs[i].node};
    hide NodesOf, Failed;
  }

  /** The timers of the requests that go down with a connection; the close step may
      delete any timers, finishing their requests with an error, but inserts none. */
  method Close(q: Queue, ghost conns: set<Conn>, drained: seq<Msg>)
    requires q.Valid() && Known(q.owner, drained)
    modifies q.tree, q.tree.mem.Keys, drained`done, drained`error
    ensures q.Valid() && q.tree.mem.Keys <= old(q.tree.mem.Keys)
    ensures
      var s := old(StateOf(q, conns));
      StateOf(q, conns) == s.(pending := s.pending - NodesOf(drained), flags := Failed(s.flags, drained))
  {
    hide q.Valid, StateOf, NodesOf, Failed, FlagsOf, ErrorsOf, q.Pending;
    ghost var s := StateOf(q, conns);
    var i := 0;
    NoneDown(s, drained);
    while i < |drained|
      invariant 0 <= i <= |drained|
      invariant q.Valid() && q.tree.mem.Keys <= old(q.tree.mem.Keys)
      invariant StateOf(q, conns) ==
        s.(pending := s.pending - NodesOf(drained[..i]), flags := Failed(s.flags, drained[..i]))
    {
      Fail(q, conns, drained[i]);
      OneMoreDown(s, drained, i);
      i := i + 1;
    }
    assert drained[..i] == drained;
  }

  /** The requests that go down with some connections. */
  ghost function Down(closed: set<Conn>, drained: Conn -> seq<Msg>): (ns: set<RbNode>)
    ensures forall n :: n in ns ==> exists c :: c in closed && n in NodesOf(drained(c))
    ensures forall c, n :: c in closed && n in NodesOf(drained(c)) ==> n in ns
  {
    set c, n | c in closed && n in NodesOf(drained(c)) :: n
  }

  /** A timer of an unfinished request on the connection has run out. */
  ghost predicate TimedOut(s: State, c: Conn, now: int) {
    exists n :: n in s.pending && s.pending[n].1 == c && s.pending[n].0 <= now && !Finished(s, n)
  }

  /** Why a timer may leave the queue: its request was finished before, or its deadline has
      passed and its connection was closed, or its request went down with a connection. */
  ghost predicate Excused(s: State, n: RbNode, closed: set<Conn>, down: set<RbNode>, now: int)
    requires n in s.pending
  {
    Finished(s, n) || (s.pending[n].0 <= now && s.pending[n].1 in closed) || n in down
  }

  /** From s to s' all timers that are gone are excused, and none is left of a request that
      went down. */
  ghost predicate Gone(s: State, s': State, closed: set<Conn>, down: set<RbNode>, now: int) {
    && Sub(s'.pending, s.pending)
    && (forall n :: n in s.pending && n !in s'.pending ==> Excused(s, n, closed, down, now))
    && (forall n :: n in s'.pending ==> n !in down)
  }

  /** Exactly the requests that went down were finished, with an error. */
  ghost predicate Marked(s: State, s': State, down: set<RbNode>) {
    && s'.flags.Keys == s.flags.Keys
    && forall n :: n in s.flags ==> s'.flags[n] == if n in down then Flags(true, true) else s.flags[n]
  }

  /** Exactly the connections closed have the error. */
  ghost predicate Told(s: State, s': State, closed: set<Conn>) {
    && s'.errors.Keys == s.errors.Keys
    && forall c :: c in s.errors ==> s'.errors[c] == if c in closed then ETIMEDOUT else s.errors[c]
  }

  /** What the loop has done: connections were closed only for a timer that has run out. */
  ghost predicate Swept(s: State, s': State, closed: set<Conn>, drained: Conn -> seq<Msg>, now: int) {
    var down := Down(closed, drained);
    && Gone(s, s', closed, down, now) && Marked(s, s', down) && Told(s, s', closed)
    && forall c :: c in closed ==> TimedOut(s, c, now)
  }

  lemma SweptNone(s: State, drained: Conn -> seq<Msg>, now: int)
    ensures Swept(s, s, {}, drained, now)
  {
  }

  /** One after the other, while time goes on. */
  lemma SweptMore(s: State, s1: State, s2: State, closed: set<Conn>, more: set<Conn>, drained: Conn -> seq<Msg>,
                  now: int, now': int)
    requires Swept(s, s1, closed, drained, now) && Swept(s1, s2, more, drained, now') && now <= now'
    ensures Swept(s, s2, closed + more, drained, now')
  {
    hide Gone, Marked, Told, TimedOut, Down;
    var down, down' := Down(closed, drained), Down(more, drained);
    DownMore(closed, more, drained);
    GoneMore(s, s1, s2, closed, more, down, down', now, now');
    TimedOutMore(s, s1, closed, more, down, now, now');
    MarkedMore(s, s1, s2, down, down');
    ToldMore(s, s1, s2, closed, more);
  }

  lemma DownMore(closed: set<Conn>, more: set<Conn>, drained: Conn -> seq<Msg>)
    ensures Down(closed + more, drained) == Down(closed, drained) + Down(more, drained)
  {
    hide NodesOf;
  }

  lemma Same(s: State, s1: State, closed: set<Conn>, down: set<RbNode>, now: int, n: RbNode)
    requires Gone(s, s1, closed, down, now) && Marked(s, s1, down) && n in s1.pending
    ensures n in s.pending && s1.pending[n] == s.pending[n] && (Finished(s1, n) <==> Finished(s, n))
  {
  }

  lemma GoneMore(s: State, s1: State, s2: State, closed: set<Conn>, more: set<Conn>,
                 down: set<RbNode>, down': set<RbNode>, now: int, now': int)
    requires Gone(s, s1, closed, down, now) && Marked(s, s1, down) && Gone(s1, s2, more, down', now') && now <= now'
    ensures Gone(s, s2, closed + more, down + down', now')
  {
    hide Marked, Finished;
    forall n | n in s.pending && n !in s2.pending ensures Excused(s, n, closed + more, down + down', now') {
      if n in s1.pending {
        Same(s, s1, closed, down, now, n);
      }
    }
  }

  lemma TimedOutMore(s: State, s1: State, closed: set<Conn>, more: set<Conn>, down: set<RbNode>, now: int, now': int)
    requires Gone(s, s1, closed, down, now) && Marked(s, s1, down) && now <= now'
    requires forall c :: c in closed ==> TimedOut(s, c, now)
    requires forall c :: c in more ==> TimedOut(s1, c, now')
    ensures forall c :: c in closed + more ==> TimedOut(s, c, now')
  {
    hide Gone, Marked, Finished;
    forall c | c in closed + more ensures TimedOut(s, c, now') {
      if c !in closed {
        var n :| n in s1.pending && s1.pending[n].1 == c && s1.pending[n].0 <= now' && !Finished(s1, n);
        Same(s, s1, closed, down, now, n);
      }
    }
  }

  lemma MarkedMore(s: State, s1: State, s2: State, down: set<RbNode>, down': set<RbNode>)
    requires Marked(s, s1, down) && Marked(s1, s2, down')
    ensures Marked(s, s2, down + down')
  {
  }

  lemma ToldMore(s: State, s1: State, s2: State, closed: set<Conn>, more: set<Conn>)
    requires Told(s, s1, closed) && Told(s1, s2, more)
    ensures Told(s, s2, closed + more)
  {
  }

  /** Conversion to a C int of 32 bits. */
  function AsInt(x: int): (r: int)
    ensures -0x8000_0000 <= r < 0x8000_0000 && (r - x) % 0x1_0000_0000 == 0
    ensures -0x8000_0000 <= x < 0x8000_0000 <==> r == x
  {
    (x + 0x8000_0000) % 0x1_0000_0000 - 0x8000_0000
  }

  /** The time left of a timeout that is an int is an int, as long as the clock does not go
      backwards. */
  lemma WaitFits(started: int, timeout: int, now: int)
    requires 0 <= timeout < 0x8000_0000 && started <= now < started + timeout
    ensures AsInt(started + timeout - now) == started + timeout - now
  {
  }

  /** The wait is neither longer than maxTimeout nor than the time left, and one of them. */
  ghost predicate Waits(timeout: int, left: int, maxTimeout: int) {
    timeout <= maxTimeout && timeout <= AsInt(left) && (timeout == maxTimeout || timeout == AsInt(left))
  }

  /** No timer runs, or the first is of an unfinished request; all are in the future, and
      the wait is the time to the first, at most maxTimeout. */
  ghost predicate Rested(q: Queue, now: int, timeout: int, maxTimeout: int)
    reads q, q.tree, q.tree.Order(), q.owner.Values
  {
    && timeout <= maxTimeout
    && (q.Deadlines() == [] ==> timeout == maxTimeout)
    && (forall n :: n in q.Pending() ==> now < q.Pending()[n].0)
    && (q.Deadlines() != [] ==>
          var first := q.Deadlines()[0];
          && first in q.owner && !q.owner[first].done && !q.owner[first].error
          && Waits(timeout, first.key - now, maxTimeout))
  }

  /** The request at the front has run out of time. */
  method Expire(q: Queue, ghost conns: set<Conn>, msg: Msg, conn: Conn, drained: seq<Msg>)
    requires q.Valid() && msg.node in q.owner && Known(q.owner, drained) && conn in conns
    modifies q.tree, q.tree.mem.Keys, conn`err, drained`done, drained`error
    ensures q.Valid() && q.tree.mem.Keys <= old(q.tree.mem.Keys)
    ensures
      var s := old(StateOf(q, conns));
      StateOf(q, conns) ==
        State(s.pending - ({msg.node} + NodesOf(drained)), Failed(s.flags, drained), s.errors[conn := ETIMEDOUT])
  {
    Shows(q, conns);
    hide q.Valid, q.Pending, NodesOf, Known, FlagsOf, ErrorsOf, Failed, StateOf;
    Disarm(q, conns, msg);
    Shows(q, conns);
    SetError(q, conns, conn);
    Close(q, conns, drained);
  }

  datatype Verdict = Wait(timeout: int) | Again

  /** The body of core_timeout's loop: the new value of ctx->timeout, or at least one timer
      gone. */
  method Turn(q: Queue, ghost conns: set<Conn>, now: int, drained: Conn -> seq<Msg>, maxTimeout: int)
    returns (v: Verdict, ghost closed: set<Conn>)
    requires q.Valid() && Running(q.Pending(), conns)
    requires forall c :: c in conns ==> Known(q.owner, drained(c))
    modifies q.tree, q.tree.mem.Keys, conns`err, q.owner.Values`done, q.owner.Values`error
    ensures q.Valid() && q.tree.mem.Keys <= old(q.tree.mem.Keys)
    ensures Swept(old(StateOf(q, conns)), StateOf(q, conns), closed, drained, now)
    ensures v.Wait? ==> Rested(q, now, v.timeout, maxTimeout) && q.Pending() == old(q.Pending())
    ensures v.Again? ==> |q.Pending()| < |old(q.Pending())|
  {
    hide q.Valid, q.Pending, Without, NodesOf, Known, AsInt, Swept, FlagsOf, ErrorsOf, Failed, Finished;
    ghost var s := StateOf(q, conns);
    SweptNone(s, drained, now);
    var msg := q.TmoMin();
    FlagsAre(q, s);
    if msg == null {
      return Wait(maxTimeout), {};
    }
    if msg.error || msg.done {
      Disarm(q, conns, msg);
      SweptFinished(s, StateOf(q, conns), msg.node, drained, now);
      return Again, {};
    }
    q.MinData(msg.node);
    var conn := msg.node.data as Conn;
    var due := msg.node.key;
    if now < due {
      var delta := AsInt(due - now);
      return Wait(if delta < maxTimeout then delta else maxTimeout), {};
    }
    assert s.pending[msg.node] == (due, conn) && conn in conns;
    KnownValues(q.owner, drained(conn));
    Expire(q, conns, msg, conn, drained(conn));
    SweptClosed(s, StateOf(q, conns), msg.node, conn, drained, now);
    return Again, {conn};
  }

  lemma FlagsAre(q: Queue, s: State)
    requires s.flags == FlagsOf(q.owner)
    ensures forall n :: n in q.owner ==> (Finished(s, n) <==> q.owner[n].done || q.owner[n].error)
  {
  }

  /** A turn that deletes the timer of a finished request. */
  lemma SweptFinished(s: State, s': State, n: RbNode, drained: Conn -> seq<Msg>, now: int)
    requires n in s.pending && Finished(s, n) && s' == s.(pending := s.pending - {n})
    ensures Swept(s, s', {}, drained, now) && |s'.pending| < |s.pending|
  {
    Smaller(s.pending, {n});
  }

  /** A turn that closes a connection. */
  lemma SweptClosed(s: State, s': State, n: RbNode, c: Conn, drained: Conn -> seq<Msg>, now: int)
    requires n in s.pending && s.pending[n].1 == c && s.pending[n].0 <= now && !Finished(s, n) && c in s.errors
    requires s'.pending == s.pending - ({n} + NodesOf(drained(c))) && s'.errors == s.errors[c := ETIMEDOUT]
    requires s'.flags == Failed(s.flags, drained(c)) && forall m :: m in drained(c) ==> m.node in s.flags
    ensures Swept(s, s', {c}, drained, now) && |s'.pending| < |s.pending|
  {
    var down := NodesOf(drained(c));
    FailedAll(s.flags, drained(c));
    DownOne(c, drained);
    MarkedClosed(s, s', down);
    hide NodesOf, Failed, Down, Gone, Finished, Marked, Told, Sub;
    Smaller(s.pending, {n} + down);
    assert TimedOut(s, c, now);
    GoneClosed(s, s', n, c, down, now);
    ToldClosed(s, s', c);
  }

  lemma MarkedClosed(s: State, s': State, down: set<RbNode>)
    requires s'.flags.Keys == s.flags.Keys
    requires forall n :: n in s.flags ==> s'.flags[n] == if n in down then Flags(true, true) else s.flags[n]
    ensures Marked(s, s', down)
  {
  }

  lemma ToldClosed(s: State, s': State, c: Conn)
    requires c in s.errors && s'.errors == s.errors[c := ETIMEDOUT]
    ensures Told(s, s', {c})
  {
  }

  lemma DownOne(c: Conn, drained: Conn -> seq<Msg>)
    ensures Down({c}, drained) == NodesOf(drained(c))
  {
    hide NodesOf;
  }

  lemma GoneClosed(s: State, s': State, n: RbNode, c: Conn, down: set<RbNode>, now: int)
    requires n in s.pending && s.pending[n].1 == c && s.pending[n].0 <= now && s'.pending == s.pending - ({n} + down)
    ensures Gone(s, s', {c}, down, now)
  {
  }

  lemma KnownValues(owner: map<RbNode, Msg>, msgs: seq<Msg>)
    requires Known(owner, msgs)
    ensures forall m :: m in msgs ==> m in owner.Values && m.node in owner
  {
  }

  /** core_timeout. The clock reads clock(i) in the i-th round, and there is a new round
      after every deletion; the requests that closing a connection takes down are
      drained(conn). */
  method CoreTimeout(ctx: Context, q: Queue, ghost conns: set<Conn>, clock: nat -> int, drained: Conn -> seq<Msg>)
    returns (now: int, ghost closed: set<Conn>, ghost rounds: nat)
    requires q.Valid() && Running(q.Pending(), conns)
    requires forall i, j :: i <= j ==> clock(i) <= clock(j)
    requires forall c :: c in conns ==> Known(q.owner, drained(c))
    modifies ctx`timeout, q.tree, q.tree.mem.Keys, conns`err, q.owner.Values`done, q.owner.Values`error
    ensures q.Valid() && Rested(q, now, ctx.timeout, ctx.maxTimeout)
    ensures ctx.timeout <= ctx.maxTimeout && (q.Deadlines() == [] ==> ctx.timeout == ctx.maxTimeout)
    ensures q.Deadlines() != [] ==>
      var left := AsInt(q.Deadlines()[0].key - now);
      ctx.timeout <= left && (ctx.timeout == left || ctx.timeout == ctx.maxTimeout)
    ensures Swept(old(StateOf(q, conns)), StateOf(q, conns), closed, drained, now)
    ensures rounds > 0 && now == clock(rounds - 1) && (q.Pending() != old(q.Pending()) ==> rounds > 1)
  {
    hide q.Valid, q.Pending, Without, Known, Swept, AsInt, StateOf, Rested;
    var timeout;
    now, timeout, closed, rounds := Rounds(q, conns, clock, drained, ctx.maxTimeout);
    Resting(q, now, timeout, ctx.maxTimeout);
    ghost var order: seq<object> := q.tree.Order();
    assert ctx !in order;
    ctx.timeout := timeout;
  }

  lemma Resting(q: Queue, now: int, timeout: int, maxTimeout: int)
    requires Rested(q, now, timeout, maxTimeout)
    ensures timeout <= maxTimeout && (q.Deadlines() == [] ==> timeout == maxTimeout)
    ensures q.Deadlines() != [] ==>
      var left := AsInt(q.Deadlines()[0].key - now);
      timeout <= left && (timeout == left || timeout == maxTimeout)
  {
  }

  /** The loop of core_timeout. */
  method Rounds(q: Queue, ghost conns: set<Conn>, clock: nat -> int, drained: Conn -> seq<Msg>, maxTimeout: int)
    returns (now: int, timeout: int, ghost closed: set<Conn>, ghost rounds: nat)
    requires q.Valid() && Running(q.Pending(), conns)
    requires forall i, j :: i <= j ==> clock(i) <= clock(j)
    requires forall c :: c in conns ==> Known(q.owner, drained(c))
    modifies q.tree, q.tree.mem.Keys, conns`err, q.owner.Values`done, q.owner.Values`error
    ensures q.Valid() && Rested(q, now, timeout, maxTimeout)
    ensures Swept(old(StateOf(q, conns)), StateOf(q, conns), closed, drained, now)
    ensures rounds > 0 && now == clock(rounds - 1) && (q.Pending() != old(q.Pending()) ==> rounds > 1)
  {
    hide q.Valid, q.Pending, Without, Known, Rested, Running, Swept, StateOf;
    ghost var s := StateOf(q, conns);
    closed := {};
    Shows(q, conns);
    SweptNone(s, drained, clock(0));
    var round, v := 0, Again;
    now, rounds := clock(0), 0;
    while v.Again?
      invariant q.Valid() && q.tree.mem.Keys <= old(q.tree.mem.Keys)
      invariant rounds == round && now == clock(if rounds == 0 then 0 else rounds - 1)
      invariant q.Pending() != old(q.Pending()) ==> rounds > if v.Again? then 0 else 1
      invariant v.Wait? ==> rounds > 0
      invariant now <= clock(round) && Swept(s, StateOf(q, conns), closed, drained, now)
      invariant v.Wait? ==> Rested(q, now, v.timeout, maxTimeout)
      decreases |q.Pending()|, v.Again?
    {
      ghost var s1, before, more := StateOf(q, conns), now, {};
      Shows(q, conns);
      StillRunning(q, conns, s, closed, drained, now);
      now := clock(round);
      round := round + 1;
      v, more := Turn(q, conns, now, drained, maxTimeout);
      SweptMore(s, s1, StateOf(q, conns), closed, more, drained, before, now);
      closed, rounds := closed + more, rounds + 1;
    }
    timeout := v.timeout;
  }

  lemma Shows(q: Queue, conns: set<Conn>)
    ensures StateOf(q, conns) == State(q.Pending(), FlagsOf(q.owner), ErrorsOf(conns))
  {
  }

  lemma StillRunning(q: Queue, conns: set<Conn>, s: State, closed: set<Conn>, drained: Conn -> seq<Msg>, now: int)
    requires Running(s.pending, conns) && Swept(s, StateOf(q, conns), closed, drained, now)
    ensures Running(q.Pending(), conns)
  {
    hide q.Pending, Down, Excused;
  }

  ghost predicate Sub(p: map<RbNode, Timer>, q: map<RbNode, Timer>) {
    forall n :: n in p ==> n in q && p[n] == q[n]
  }

  lemma Smaller(p: map<RbNode, Timer>, gone: set<RbNode>)
    requires exists n :: n in gone && n in p
    ensures |p - gone| < |p|
  {
    var n :| n in gone && n in p;
    SubsetSize((p - gone).Keys, p.Keys - {n});
  }

  lemma {:induction false} SubsetSize<T>(s: set<T>, t: set<T>)
    requires s <= t
    ensures |s| <= |t|
  {
    if s != {} {
      var x :| x in s;
      SubsetSize(s - {x}, t - {x});
    }
  }

  lemma InsertMembers(before: seq<RbNode>, n: RbNode, after: seq<RbNode>)
    ensures forall x :: x in before + [n] + after <==> x in before + after || x == n
  {
  }

  /** s with every occurrence of n left out. */
  ghost function Without(s: seq<RbNode>, n: RbNode): seq<RbNode> {
    if s == [] then [] else (if s[0] == n then [] else [s[0]]) + Without(s[1..], n)
  }

  lemma {:induction false} WithoutAbsent(s: seq<RbNode>, n: RbNode)
    ensures n !in s ==> Without(s, n) == s
    ensures forall x :: x in Without(s, n) <==> x in s && x != n
  {
    if s != [] { WithoutAbsent(s[1..], n); }
  }

  lemma {:induction false} WithoutConcat(s: seq<RbNode>, t: seq<RbNode>, n: RbNode)
    ensures Without(s + t, n) == Without(s, n) + Without(t, n)
  {
    if s == [] {
      assert s + t == t;
    } else {
      var head := if s[0] == n then [] else [s[0]];
      assert (s + t)[1..] == s[1..] + t && (s + t)[0] == s[0];
      assert Without(s + t, n) == head + Without(s[1..] + t, n) && Without(s, n) == head + Without(s[1..], n);
      hide Without;
      WithoutConcat(s[1..], t, n);
    }
  }

  lemma WithoutPresent(before: seq<RbNode>, n: RbNode, after: seq<RbNode>)
    requires NoDuplicates(before + [n] + after)
    ensures Without(before + [n] + after, n) == before + after
  {
    hide Without;
    AbsentAround(before, n, after);
    WithoutConcat(before + [n], after, n);
    WithoutConcat(before, [n], n);
    WithoutOne(n);
    WithoutAbsent(before, n);
    WithoutAbsent(after, n);
    assert before + [] == before;
  }

  lemma WithoutOne(n: RbNode)
    ensures Without([n], n) == []
  {
  }

  lemma AbsentAround(before: seq<RbNode>, n: RbNode, after: seq<RbNode>)
    requires NoDuplicates(before + [n] + after)
    ensures n !in before && n !in after
  {
    var s := before + [n] + after;
    assert s[|before|] == n;
    forall i | 0 <= i < |before| ensures before[i] != n { assert s[i] == before[i]; }
    forall i | 0 <= i < |after| ensures after[i] != n { assert s[|before| + 1 + i] == after[i]; }
  }
}
