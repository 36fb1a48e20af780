/** stats_create_buf and stats_make_rsp of src/gf_stats.c over one buffer. */
module StatsReport {
  import opened StatsJson
  import opened JsonReader

  datatype Metric = Metric(name: string, value: int)
  datatype ServerStats = ServerStats(name: string, metrics: seq<Metric>)
  datatype PoolStats = PoolStats(name: string, metrics: seq<Metric>, servers: seq<ServerStats>)
  datatype Head = Head(source: string, version: string, uptime: int, timestamp: int, total: int, current: int)

  /** What a bounded string format prints of a name: all that stands before a NUL. */
  function Clip(name: string): (r: string)
    ensures r <= name && '\0' !in r && (r == name || name[|r|] == '\0')
    ensures '\0' !in name ==> r == name
  {
    if name == "" || name[0] == '\0' then "" else [name[0]] + Clip(name[1..])
  }

  // ---------- the document ----------

  function MetricMembers(ms: seq<Metric>): (r: seq<Member>)
    ensures |r| == |ms|
  {
    if ms == [] then []
    else
      var m := ms[|ms| - 1];
      MetricMembers(ms[..|ms| - 1]) + [Member(Clip(m.name), Num(m.value))]
  }

  function ServerMember(s: ServerStats): Member {
    Member(Clip(s.name), Obj(MetricMembers(s.metrics)))
  }

  function ServerMembers(ss: seq<ServerStats>): (r: seq<Member>)
    ensures |r| == |ss|
  {
    if ss == [] then [] else ServerMembers(ss[..|ss| - 1]) + [ServerMember(ss[|ss| - 1])]
  }

  function PoolMember(p: PoolStats): Member {
    Member(Clip(p.name), Obj(MetricMembers(p.metrics) + ServerMembers(p.servers)))
  }

  function PoolMembers(ps: seq<PoolStats>): (r: seq<Member>)
    ensures |r| == |ps|
  {
    if ps == [] then [] else PoolMembers(ps[..|ps| - 1]) + [PoolMember(ps[|ps| - 1])]
  }

  function HeadMembers(h: Head): seq<Member> {
    [Member("service", Str("nutcracker")), Member("source", Str(Clip(h.source))),
     Member("version", Str(Clip(h.version))),
     Member("uptime", Num(h.uptime)), Member("timestamp", Num(h.timestamp)),
     Member("total_connections", Num(h.total)), Member("curr_connections", Num(h.current))]
  }

  function Document(h: Head, ps: seq<PoolStats>): Json {
    Obj(HeadMembers(h) + PoolMembers(ps))
  }

  /** Values are 64-bit numbers, and every pool and server has metrics. */
  predicate SoundMetrics(ms: seq<Metric>) {
    ms != [] && forall m :: m in ms ==> Int64(m.value)
  }

  predicate Sound(h: Head, ps: seq<PoolStats>) {
    && Int64(h.uptime) && Int64(h.timestamp) && Int64(h.total) && Int64(h.current)
    && forall p :: p in ps ==> SoundMetrics(p.metrics) && forall s :: s in p.servers ==> SoundMetrics(s.metrics)
  }

  // ---------- the size of the buffer ----------

  const EXTRA := 8

  function MetricsCost(ms: seq<Metric>): nat {
    if ms == [] then 0 else |ms[0].name| + MAX_DIGITS + EXTRA + MetricsCost(ms[1..])
  }

  function ServersCost(ss: seq<ServerStats>): nat {
    if ss == [] then 0 else |ss[0].name| + EXTRA + MetricsCost(ss[0].metrics) + ServersCost(ss[1..])
  }

  function PoolsCost(ps: seq<PoolStats>): nat {
    if ps == [] then 0
    else |ps[0].name| + EXTRA + MetricsCost(ps[0].metrics) + ServersCost(ps[0].servers) + PoolsCost(ps[1..])
  }

  function HeadCost(h: Head): nat {
    |"service"| + |"nutcracker"| + EXTRA + |"source"| + |h.source| + EXTRA + |"version"| + |h.version| + EXTRA +
    |"uptime"| + MAX_DIGITS + EXTRA + |"timestamp"| + MAX_DIGITS + EXTRA +
    |"total_connections"| + MAX_DIGITS + EXTRA + |"curr_connections"| + MAX_DIGITS + EXTRA
  }

  const INT_MAX := 0x7fff_ffff

  class Buffer {
    const data: array<char>
    var len: nat

    ghost predicate Holds(text: string)
      reads this, data
    {
      len == |text| <= data.Length <= INT_MAX && data[..len] == text
    }

    /** stats_create_buf */
    constructor (h: Head, ps: seq<PoolStats>)
      ensures fresh(data) && len == 0
      ensures data.Length % 8 == 0 && 0 <= data.Length - (1 + HeadCost(h) + PoolsCost(ps) + 2) < 8
    {
      var size: nat := 1 + HeadCost(h);
      var i := 0;
      ghost var all := size + PoolsCost(ps);
      assert ps[0..] == ps;
      while i < |ps|
        invariant 0 <= i <= |ps| && size + PoolsCost(ps[i..]) == all
      {
        assert ps[i..][1..] == ps[i + 1..];
        size := size + |ps[i].name| + EXTRA;
        size := SizeMetrics(size, ps[i].metrics);
        size := SizeServers(size, ps[i].servers);
        i := i + 1;
      }
      size := size + 2;
      size := (size + 7) / 8 * 8;
      data := new char[size](_ => '\0');
      len := 0;
    }

    static method SizeMetrics(size0: nat, ms: seq<Metric>) returns (size: nat)
      ensures size == size0 + MetricsCost(ms)
    {
      size := size0;
      assert ms[0..] == ms;
      for j := 0 to |ms|
        invariant size + MetricsCost(ms[j..]) == size0 + MetricsCost(ms)
      {
        assert ms[j..][1..] == ms[j + 1..];
        size := size + |ms[j].name| + MAX_DIGITS + EXTRA;
      }
    }

    static method SizeServers(size0: nat, ss: seq<ServerStats>) returns (size: nat)
      ensures size == size0 + ServersCost(ss)
    {
      size := size0;
      assert ss[0..] == ss;
      for j := 0 to |ss|
        invariant size + ServersCost(ss[j..]) == size0 + ServersCost(ss)
      {
        assert ss[j..][1..] == ss[j + 1..];
        size := size + |ss[j].name| + EXTRA;
        size := SizeMetrics(size, ss[j].metrics);
      }
    }

    /** snprintf: at most room bytes with the NUL at the end; the length is that of the
        whole text. */
    method Snprintf(pos: nat, room: nat, text: string) returns (n: nat)
      requires pos + room <= data.Length
      modifies data
      ensures n == |text| && data[..pos] == old(data[..pos])
      ensures n < room ==> data[pos..pos + n] == text && data[pos + n] == '\0'
      ensures forall k :: pos + room <= k < data.Length ==> data[k] == old(data[k])
    {
      n := |text|;
      if room > 0 {
        var m := if n < room then n else room - 1;
        forall k | 0 <= k < m {
          data[pos + k] := text[k];
        }
        data[pos + m] := '\0';
      }
    }

    /** The common part of the functions that add a piece of text. */
    method Append(text: string, ghost t: string) returns (ok: bool)
      requires Holds(t) && len + 1 <= data.Length
      modifies `len, data
      ensures ok <==> |t| + |text| + 2 <= data.Length
      ensures ok ==> Holds(t + text)
    {
      var room := data.Length - len - 1;
      var n := Snprintf(len, room, text);
      if n >= room {
        return false;
      }
      len := len + n;
      assert data[..len] == t + text;
      return true;
    }

    /** stats_add_string */
    method AddString(key: string, val: string, ghost pre: string, ghost ms: seq<Member>) returns (ok: bool)
      requires Holds(pre + Trail(ms)) && len + |key| + |val| + EXTRA + 2 <= data.Length
      modifies `len, data
      ensures ok && len <= old(len) + |key| + |val| + EXTRA
      ensures Holds(pre + Trail(ms + [Member(Clip(key), Str(Clip(val)))]))
    {
      hide Trail, PrintMember, Separator;
      var text := "\"" + Clip(key) + "\":\"" + Clip(val) + "\", ";
      StringText(Clip(key), Clip(val));
      TrailPush(ms, Member(Clip(key), Str(Clip(val))));
      assert pre + Trail(ms) + text == pre + (Trail(ms) + text);
      ok := Append(text, pre + Trail(ms));
    }

    /** stats_add_num */
    method AddNum(key: string, val: int, ghost pre: string, ghost ms: seq<Member>) returns (ok: bool)
      requires Holds(pre + Trail(ms)) && Int64(val) && len + |key| + MAX_DIGITS + EXTRA + 2 <= data.Length
      modifies `len, data
      ensures ok && len <= old(len) + |key| + MAX_DIGITS + EXTRA
      ensures Holds(pre + Trail(ms + [Member(Clip(key), Num(val))]))
    {
      hide Trail, PrintMember, Separator, Dec;
      var text := "\"" + Clip(key) + "\":" + Dec(val) + ", ";
      DecLength(val);
      NumText(Clip(key), val);
      TrailPush(ms, Member(Clip(key), Num(val)));
      assert pre + Trail(ms) + text == pre + (Trail(ms) + text);
      ok := Append(text, pre + Trail(ms));
    }

    /** stats_begin_nesting */
    method BeginNesting(key: string, ghost t: string) returns (ok: bool)
      requires Holds(t) && len + |key| + 7 <= data.Length
      modifies `len, data
      ensures ok && Holds(t + Open(Clip(key))) && len <= old(len) + |key| + 5
    {
      ok := Append(Open(Clip(key)), t);
    }

    /** stats_end_nesting; the default case is never reached. */
    method EndNesting(ghost pre: string, ghost ms: seq<Member>) returns (ok: bool)
      requires Holds(pre + Trail(ms)) && ms != [] && len + 1 <= data.Length
      modifies `len, data
      ensures ok && Holds(pre + PrintMembers(ms) + "},") && len <= old(len) + 1
    {
      hide Trail, PrintMembers;
      ghost var t := pre + Trail(ms);
      Closes(pre, ms);
      ghost var tail := t[|t| - 2..];
      var pos := len - 2;
      assert data[pos] == tail[0] && data[pos + 1] == tail[1];
      match data[pos] {
        case ',' =>
          data[pos] := '}';
          data[pos + 1] := ',';
          assert data[..len] == t[..|t| - 2] + "},";
        case '}' =>
          if len == data.Length {
            return false;
          }
          data[pos + 1] := '}';
          data[pos + 2] := ',';
          len := len + 1;
          assert data[..len] == t[..|t| - 1] + "},";
        case _ =>
          assert false;
      }
      ok := true;
    }

    /** stats_copy_metric */
    method CopyMetric(ms: seq<Metric>, ghost pre: string) returns (ok: bool)
      requires Holds(pre) && len + MetricsCost(ms) + 2 <= data.Length && forall m :: m in ms ==> Int64(m.value)
      modifies `len, data
      ensures ok && Holds(pre + Trail(MetricMembers(ms))) && len <= old(len) + MetricsCost(ms)
    {
      hide Trail;
      var i := 0;
      assert ms[0..] == ms && ms[..0] == [];
      TrailNone(pre);
      while i < |ms|
        invariant 0 <= i <= |ms| && Holds(pre + Trail(MetricMembers(ms[..i])))
        invariant len + MetricsCost(ms[i..]) <= old(len) + MetricsCost(ms)
      {
        assert ms[i..][1..] == ms[i + 1..] && ms[..i + 1][..i] == ms[..i];
        ok := AddNum(ms[i].name, ms[i].value, pre, MetricMembers(ms[..i]));
        if !ok {
          return;
        }
        i := i + 1;
      }
      assert ms[..i] == ms;
      ok := true;
    }

    /** The part of stats_make_rsp for one server. */
    method AddServer(s: ServerStats, ghost pre: string, ghost ms: seq<Member>) returns (ok: bool)
      requires Holds(pre + Trail(ms)) && SoundMetrics(s.metrics)
      requires len + |s.name| + EXTRA + MetricsCost(s.metrics) + 2 <= data.Length
      modifies `len, data
      ensures ok && Holds(pre + Trail(ms + [ServerMember(s)])) &&
        len <= old(len) + |s.name| + EXTRA + MetricsCost(s.metrics)
    {
      hide Trail, PrintMembers, PrintMember, Separator, MetricsCost;
      ghost var inner := pre + Trail(ms) + Open(Clip(s.name));
      ok := BeginNesting(s.name, pre + Trail(ms));
      if !ok { return; }
      ok := CopyMetric(s.metrics, inner);
      if !ok { return; }
      ok := EndNesting(inner, MetricMembers(s.metrics));
      ObjectText(Clip(s.name), MetricMembers(s.metrics));
      TrailPush(ms, ServerMember(s));
      Nested(pre, Trail(ms), Open(Clip(s.name)), PrintMembers(MetricMembers(s.metrics)));
    }

    /** The servers of a pool. */
    method AddServers(ss: seq<ServerStats>, ghost pre: string, ghost own: seq<Member>) returns (ok: bool)
      requires Holds(pre + Trail(own)) && (forall s :: s in ss ==> SoundMetrics(s.metrics))
      requires len + ServersCost(ss) + 2 <= data.Length
      modifies `len, data
      ensures ok && Holds(pre + Trail(own + ServerMembers(ss))) && len <= old(len) + ServersCost(ss)
    {
      hide Trail, MetricsCost, ServerMember;
      var j := 0;
      assert ss[0..] == ss && ss[..0] == [] && own + [] == own;
      TrailNone(pre);
      while j < |ss|
        invariant 0 <= j <= |ss| && Holds(pre + Trail(own + ServerMembers(ss[..j])))
        invariant len + ServersCost(ss[j..]) <= old(len) + ServersCost(ss)
      {
        assert ss[j..][1..] == ss[j + 1..] && ss[..j + 1][..j] == ss[..j];
        ok := AddServer(ss[j], pre, own + ServerMembers(ss[..j]));
        if !ok { return; }
        assert own + ServerMembers(ss[..j]) + [ServerMember(ss[j])] == own + ServerMembers(ss[..j + 1]);
        j := j + 1;
      }
      assert ss[..j] == ss;
      ok := true;
    }

    /** The part of stats_make_rsp for one pool. */
    method AddPool(p: PoolStats, ghost pre: string, ghost ms: seq<Member>) returns (ok: bool)
      requires Holds(pre + Trail(ms)) && SoundMetrics(p.metrics) &&
        forall s :: s in p.servers ==> SoundMetrics(s.metrics)
      requires len + |p.name| + EXTRA + MetricsCost(p.metrics) + ServersCost(p.servers) + 2 <= data.Length
      modifies `len, data
      ensures ok && Holds(pre + Trail(ms + [PoolMember(p)]))
      ensures len <= old(len) + |p.name| + EXTRA + MetricsCost(p.metrics) + ServersCost(p.servers)
    {
      hide Trail, PrintMembers, PrintMember, Separator, MetricsCost, ServersCost, MetricMembers, ServerMembers;
      ghost var inner := pre + Trail(ms) + Open(Clip(p.name));
      ok := BeginNesting(p.name, pre + Trail(ms));
      if !ok { return; }
      ok := CopyMetric(p.metrics, inner);
      if !ok { return; }
      ghost var all := MetricMembers(p.metrics) + ServerMembers(p.servers);
      ok := AddServers(p.servers, inner, MetricMembers(p.metrics));
      if !ok { return; }
      ok := EndNesting(inner, all);
      ObjectText(Clip(p.name), all);
      TrailPush(ms, PoolMember(p));
      Nested(pre, Trail(ms), Open(Clip(p.name)), PrintMembers(all));
    }

    /** stats_add_header */
    method AddHeader(h: Head) returns (ok: bool)
      requires data.Length <= INT_MAX && 1 + HeadCost(h) + 2 <= data.Length
      requires Int64(h.uptime) && Int64(h.timestamp) && Int64(h.total) && Int64(h.current)
      modifies `len, data
      ensures ok && Holds("{" + Trail(HeadMembers(h))) && len <= 1 + HeadCost(h)
    {
      hide Trail, Clip;
      PlainKeys();
      data[0] := '{';
      len := 1;
      TrailNone("{");
      assert data[..len] == "{";
      ghost var ms: seq<Member> := [];
      ok := AddString("service", "nutcracker", "{", ms);
      if !ok { return; }
      ms := ms + [Member("service", Str("nutcracker"))];
      ok := AddString("source", h.source, "{", ms);
      if !ok { return; }
      ms := ms + [Member("source", Str(Clip(h.source)))];
      ok := AddString("version", h.version, "{", ms);
      if !ok { return; }
      ms := ms + [Member("version", Str(Clip(h.version)))];
      ok := AddNumbers(h, ms);
      HeadIs(h);
      assert ms + NumberMembers(h) == HeadMembers(h);
    }

    /** The second half of stats_add_header. */
    method AddNumbers(h: Head, ghost ms0: seq<Member>) returns (ok: bool)
      requires Int64(h.uptime) && Int64(h.timestamp) && Int64(h.total) && Int64(h.current)
      requires Holds("{" + Trail(ms0)) && len + NumbersCost() + 2 <= data.Length
      modifies `len, data
      ensures ok && Holds("{" + Trail(ms0 + NumberMembers(h))) && len <= old(len) + NumbersCost()
    {
      hide Trail, Clip;
      PlainKeys();
      ghost var ms := ms0;
      ok := AddNum("uptime", h.uptime, "{", ms);
      if !ok { return; }
      ms := ms + [Member("uptime", Num(h.uptime))];
      ok := AddNum("timestamp", h.timestamp, "{", ms);
      if !ok { return; }
      ms := ms + [Member("timestamp", Num(h.timestamp))];
      ok := AddNum("total_connections", h.total, "{", ms);
      if !ok { return; }
      ms := ms + [Member("total_connections", Num(h.total))];
      ok := AddNum("curr_connections", h.current, "{", ms);
      ms := ms + [Member("curr_connections", Num(h.current))];
      assert ms == ms0 + NumberMembers(h);
    }

    /** stats_add_footer: the last byte gives way to the closing brace. */
    method AddFooter(ghost t: string) returns (ok: bool)
      requires Holds(t) && t != "" && len + 1 <= data.Length
      modifies `len, data
      ensures ok && Holds(t[..|t| - 1] + "}\n")
    {
      if len == data.Length {
        return false;
      }
      var pos := len - 1;
      data[pos] := '}';
      data[pos + 1] := '\n';
      len := len + 1;
      assert data[..len] == t[..|t| - 1] + "}\n";
      ok := true;
    }

    /** stats_make_rsp: it never fails, and the report is the printed document if and only
        if there is a pool; without one a comma is left over. */
    method MakeRsp(h: Head, ps: seq<PoolStats>) returns (ok: bool)
      requires Sound(h, ps) && data.Length <= INT_MAX && 1 + HeadCost(h) + PoolsCost(ps) + 2 <= data.Length
      modifies `len, data
      ensures ok && 0 < len <= data.Length
      ensures ps != [] ==> Holds(Print(Document(h, ps)) + "\n")
      ensures ps == [] ==> Holds("{" + PrintMembers(HeadMembers(h)) + ",}\n")
    {
      hide Trail, PrintMembers, PrintMember, Separator, HeadMembers, HeadCost, Print, Document, PoolMember,
        SoundMetrics, MetricsCost, ServersCost;
      ok := AddHeader(h);
      if !ok { return; }
      ghost var head := HeadMembers(h);
      var i := 0;
      assert ps[0..] == ps && ps[..0] == [] && head + [] == head;
      TrailNone("{");
      while i < |ps|
        invariant 0 <= i <= |ps| && Holds("{" + Trail(head + PoolMembers(ps[..i])))
        invariant len + PoolsCost(ps[i..]) <= 1 + HeadCost(h) + PoolsCost(ps)
      {
        assert ps[i..][1..] == ps[i + 1..] && ps[..i + 1][..i] == ps[..i];
        ok := AddPool(ps[i], "{", head + PoolMembers(ps[..i]));
        if !ok { return; }
        assert head + PoolMembers(ps[..i]) + [PoolMember(ps[i])] == head + PoolMembers(ps[..i + 1]);
        i := i + 1;
      }
      assert ps[..i] == ps;
      Footer(h, ps);
      ok := AddFooter("{" + Trail(head + PoolMembers(ps)));
    }
  }

  function NumbersCost(): nat {
    |"uptime"| + MAX_DIGITS + EXTRA + |"timestamp"| + MAX_DIGITS + EXTRA +
    |"total_connections"| + MAX_DIGITS + EXTRA + |"curr_connections"| + MAX_DIGITS + EXTRA
  }

  function NumberMembers(h: Head): seq<Member> {
    [Member("uptime", Num(h.uptime)), Member("timestamp", Num(h.timestamp)),
     Member("total_connections", Num(h.total)), Member("curr_connections", Num(h.current))]
  }

  lemma PlainKeys()
    ensures Clip("service") == "service" && Clip("nutcracker") == "nutcracker" && Clip("source") == "source"
    ensures Clip("version") == "version" && Clip("uptime") == "uptime" && Clip("timestamp") == "timestamp"
    ensures Clip("total_connections") == "total_connections" && Clip("curr_connections") == "curr_connections"
  {
    hide Clip;
  }

  lemma HeadIs(h: Head)
    ensures HeadMembers(h) == [Member("service", Str("nutcracker")), Member("source", Str(Clip(h.source))),
                               Member("version", Str(Clip(h.version)))] + NumberMembers(h)
  {
  }

  lemma Nested(pre: string, t: string, open: string, body: string)
    ensures pre + t + open + body + "}," == pre + (t + (open + body + "},"))
  {
  }

  /** What the footer makes of the tail. */
  lemma Footer(h: Head, ps: seq<PoolStats>)
    ensures
      var ms := HeadMembers(h) + PoolMembers(ps);
      var t := "{" + Trail(ms);
      t[..|t| - 1] + "}\n" ==
        if ps != [] then Print(Document(h, ps)) + "\n" else "{" + PrintMembers(HeadMembers(h)) + ",}\n"
  {
    hide Trail, PrintMembers;
    var head := HeadMembers(h);
    var ms := head + PoolMembers(ps);
    TrailPrints(ms);
    var t, body := "{" + Trail(ms), PrintMembers(ms);
    if ps != [] {
      assert ms[|ms| - 1] == PoolMember(ps[|ps| - 1]);
      assert t == "{" + body + "," && t[..|t| - 1] == "{" + body;
      assert Print(Document(h, ps)) == "{" + body + "}";
    } else {
      assert ms == head;
      assert t == "{" + body + ", " && t[..|t| - 1] == "{" + body + ",";
    }
  }

  function Open(key: string): string {
    "\"" + key + "\": {"
  }

  lemma StringText(key: string, val: string)
    ensures var m := Member(key, Str(val)); PrintMember(m) + Separator(m) == "\"" + key + "\":\"" + val + "\", "
  {
  }

  lemma NumText(key: string, val: int)
    ensures var m := Member(key, Num(val)); PrintMember(m) + Separator(m) == "\"" + key + "\":" + Dec(val) + ", "
  {
    hide Dec;
  }

  lemma ObjectText(key: string, ms: seq<Member>)
    ensures var m := Member(key, Obj(ms)); PrintMember(m) + Separator(m) == Open(key) + PrintMembers(ms) + "},"
  {
    hide PrintMembers;
    var m := Member(key, Obj(ms));
    assert Print(m.value) == "{" + PrintMembers(ms) + "}";
  }

  lemma TrailNone(pre: string)
    ensures pre + Trail([]) == pre && MetricMembers([]) == [] && ServerMembers([]) == [] && PoolMembers([]) == []
  {
  }

  // ---------- values change, names do not ----------

  ghost predicate SameNames(ms: seq<Metric>, ns: seq<Metric>) {
    |ms| == |ns| && forall i :: 0 <= i < |ms| ==> |ms[i].name| == |ns[i].name|
  }

  ghost predicate SameServers(ss: seq<ServerStats>, ts: seq<ServerStats>) {
    |ss| == |ts| && forall i :: 0 <= i < |ss| ==>
      |ss[i].name| == |ts[i].name| && SameNames(ss[i].metrics, ts[i].metrics)
  }

  ghost predicate SamePools(ps: seq<PoolStats>, qs: seq<PoolStats>) {
    |ps| == |qs| && forall i :: 0 <= i < |ps| ==>
      |ps[i].name| == |qs[i].name| && SameNames(ps[i].metrics, qs[i].metrics) &&
      SameServers(ps[i].servers, qs[i].servers)
  }

  lemma {:induction false} SameMetricsCost(ms: seq<Metric>, ns: seq<Metric>)
    requires SameNames(ms, ns)
    ensures MetricsCost(ms) == MetricsCost(ns)
  {
    if ms != [] { SameMetricsCost(ms[1..], ns[1..]); }
  }

  lemma {:induction false} SameServersCost(ss: seq<ServerStats>, ts: seq<ServerStats>)
    requires SameServers(ss, ts)
    ensures ServersCost(ss) == ServersCost(ts)
  {
    if ss != [] {
      SameMetricsCost(ss[0].metrics, ts[0].metrics);
      SameServersCost(ss[1..], ts[1..]);
    }
  }

  lemma {:induction false} SamePoolsCost(ps: seq<PoolStats>, qs: seq<PoolStats>)
    requires SamePools(ps, qs)
    ensures PoolsCost(ps) == PoolsCost(qs)
  {
    if ps != [] {
      SameMetricsCost(ps[0].metrics, qs[0].metrics);
      SameServersCost(ps[0].servers, qs[0].servers);
      SamePoolsCost(ps[1..], qs[1..]);
    }
  }

  // ---------- what a reader finds in the report ----------

  /** Members for metrics, from the i-th on. */
  ghost predicate HasMetrics(members: seq<Member>, i: nat, ms: seq<Metric>) {
    i + |ms| <= |members| && forall k :: 0 <= k < |ms| ==>
      members[i + k] == Member(Clip(ms[k].name), Num(ms[k].value))
  }

  ghost predicate HasServer(m: Member, s: ServerStats) {
    m.key == Clip(s.name) && m.value.Obj? && |m.value.members| == |s.metrics| &&
    HasMetrics(m.value.members, 0, s.metrics)
  }

  /** The metrics of the pool, and then its servers. */
  ghost predicate HasPool(m: Member, p: PoolStats) {
    && m.key == Clip(p.name) && m.value.Obj?
    && |m.value.members| == |p.metrics| + |p.servers| && HasMetrics(m.value.members, 0, p.metrics)
    && forall k :: 0 <= k < |p.servers| ==> HasServer(m.value.members[|p.metrics| + k], p.servers[k])
  }

  /** The head of the report, and then the pools. */
  ghost predicate HasAll(j: Json, h: Head, ps: seq<PoolStats>) {
    && j.Obj? && |j.members| == 7 + |ps|
    && j.members[..7] ==
       [Member("service", Str("nutcracker")), Member("source", Str(Clip(h.source))),
        Member("version", Str(Clip(h.version))), Member("uptime", Num(h.uptime)),
        Member("timestamp", Num(h.timestamp)), Member("total_connections", Num(h.total)),
        Member("curr_connections", Num(h.current))]
    && forall k :: 0 <= k < |ps| ==> HasPool(j.members[7 + k], ps[k])
  }

  ghost predicate PlainMetrics(ms: seq<Metric>) {
    forall i :: 0 <= i < |ms| ==> AllPlain(Clip(ms[i].name))
  }

  ghost predicate PlainServers(ss: seq<ServerStats>) {
    forall i :: 0 <= i < |ss| ==> AllPlain(Clip(ss[i].name)) && PlainMetrics(ss[i].metrics)
  }

  ghost predicate PlainPools(ps: seq<PoolStats>) {
    forall i :: 0 <= i < |ps| ==>
      AllPlain(Clip(ps[i].name)) && PlainMetrics(ps[i].metrics) && PlainServers(ps[i].servers)
  }

  /** Nothing in the names has to be escaped. */
  ghost predicate PlainNames(h: Head, ps: seq<PoolStats>) {
    AllPlain(Clip(h.source)) && AllPlain(Clip(h.version)) && PlainPools(ps)
  }

  lemma {:induction false} MetricsHas(ms: seq<Metric>)
    ensures HasMetrics(MetricMembers(ms), 0, ms)
  {
    if ms != [] {
      MetricsHas(ms[..|ms| - 1]);
    }
  }

  lemma {:induction false} ServersHas(ss: seq<ServerStats>)
    ensures forall k :: 0 <= k < |ss| ==> HasServer(ServerMembers(ss)[k], ss[k])
  {
    hide Clip, MetricMembers, HasMetrics;
    if ss != [] {
      var k := |ss| - 1;
      ServersHas(ss[..k]);
      MetricsHas(ss[k].metrics);
    }
  }

  lemma {:induction false} PoolsHas(ps: seq<PoolStats>)
    ensures forall k :: 0 <= k < |ps| ==> HasPool(PoolMembers(ps)[k], ps[k])
  {
    hide Clip, MetricMembers, HasMetrics, ServerMembers, HasServer;
    if ps != [] {
      var k := |ps| - 1;
      PoolsHas(ps[..k]);
      MetricsHas(ps[k].metrics);
      ServersHas(ps[k].servers);
      MetricsFirst(MetricMembers(ps[k].metrics), ServerMembers(ps[k].servers), ps[k].metrics);
    }
  }

  lemma MetricsFirst(members: seq<Member>, more: seq<Member>, ms: seq<Metric>)
    requires HasMetrics(members, 0, ms)
    ensures HasMetrics(members + more, 0, ms)
  {
  }

  /** The document has everything, in its place. */
  lemma DocumentHas(h: Head, ps: seq<PoolStats>)
    ensures HasAll(Document(h, ps), h, ps)
  {
    hide Clip, HasPool;
    PoolsHas(ps);
    var head := HeadMembers(h);
    assert (head + PoolMembers(ps))[..7] == head;
  }

  lemma {:induction false} MetricsPlain(ms: seq<Metric>)
    ensures PlainMembers(MetricMembers(ms)) <==> PlainMetrics(ms)
  {
    hide AllPlain, Clip, PlainMembers;
    if ms == [] {
      NonePlain();
    } else {
      var k := |ms| - 1;
      MetricsPlain(ms[..k]);
      var m := Member(Clip(ms[k].name), Num(ms[k].value));
      PlainConcat(MetricMembers(ms[..k]), [m]);
      PlainOne(m);
      assert PlainMetrics(ms) <==> PlainMetrics(ms[..k]) && AllPlain(Clip(ms[k].name)) by {
        assert forall i :: 0 <= i < k ==> ms[..k][i] == ms[i];
      }
    }
  }

  lemma NonePlain()
    ensures PlainMembers([])
  {
  }

  lemma {:induction false} ServersPlain(ss: seq<ServerStats>)
    ensures PlainMembers(ServerMembers(ss)) <==> PlainServers(ss)
  {
    hide AllPlain, Clip, PlainMembers, PlainJson, PlainMetrics;
    if ss == [] {
      NonePlain();
    } else {
      var k := |ss| - 1;
      ServersPlain(ss[..k]);
      PlainConcat(ServerMembers(ss[..k]), [ServerMember(ss[k])]);
      PlainOne(ServerMember(ss[k]));
      PlainObj(MetricMembers(ss[k].metrics));
      MetricsPlain(ss[k].metrics);
      assert PlainServers(ss) <==>
        PlainServers(ss[..k]) && AllPlain(Clip(ss[k].name)) && PlainMetrics(ss[k].metrics) by {
        assert forall i :: 0 <= i < k ==> ss[..k][i] == ss[i];
      }
    }
  }

  lemma {:induction false} PoolsPlain(ps: seq<PoolStats>)
    ensures PlainMembers(PoolMembers(ps)) <==> PlainPools(ps)
  {
    hide AllPlain, Clip, PlainMembers, PlainJson, PlainMetrics, PlainServers;
    if ps == [] {
      NonePlain();
    } else {
      var k := |ps| - 1;
      var p := ps[k];
      PoolsPlain(ps[..k]);
      PlainConcat(PoolMembers(ps[..k]), [PoolMember(p)]);
      PlainOne(PoolMember(p));
      PlainObj(MetricMembers(p.metrics) + ServerMembers(p.servers));
      PlainConcat(MetricMembers(p.metrics), ServerMembers(p.servers));
      MetricsPlain(p.metrics);
      ServersPlain(p.servers);
      assert PlainPools(ps) <==>
        PlainPools(ps[..k]) && AllPlain(Clip(p.name)) && PlainMetrics(p.metrics) && PlainServers(p.servers) by {
        assert forall i :: 0 <= i < k ==> ps[..k][i] == ps[i];
      }
    }
  }

  lemma HeadPlain(h: Head)
    ensures PlainMembers(HeadMembers(h)) <==> AllPlain(Clip(h.source)) && AllPlain(Clip(h.version))
  {
    KeysPlain();
    hide AllPlain, Clip, PlainMembers;
    var a, b, c := Member("service", Str("nutcracker")), Member("source", Str(Clip(h.source))),
                   Member("version", Str(Clip(h.version)));
    var d, e := Member("uptime", Num(h.uptime)), Member("timestamp", Num(h.timestamp));
    var f, g := Member("total_connections", Num(h.total)), Member("curr_connections", Num(h.current));
    PlainTwo(a, b);
    PlainTwo(d, e);
    PlainTwo(f, g);
    PlainOne(c);
    PlainConcat([a, b], [c]);
    PlainConcat([d, e], [f, g]);
    PlainConcat([a, b] + [c], [d, e] + [f, g]);
    assert HeadMembers(h) == [a, b] + [c] + ([d, e] + [f, g]);
  }

  lemma PlainTwo(m: Member, n: Member)
    ensures PlainMembers([m, n]) <==>
      AllPlain(m.key) && PlainJson(m.value) && AllPlain(n.key) && PlainJson(n.value)
  {
    hide AllPlain, PlainMembers, PlainJson;
    PlainOne(m);
    PlainOne(n);
    PlainConcat([m], [n]);
    assert [m] + [n] == [m, n];
  }

  lemma KeysPlain()
    ensures AllPlain("service") && AllPlain("nutcracker") && AllPlain("source") && AllPlain("version")
    ensures AllPlain("uptime") && AllPlain("timestamp")
    ensures AllPlain("total_connections") && AllPlain("curr_connections")
  {
  }

  lemma DocumentPlain(h: Head, ps: seq<PoolStats>)
    ensures PlainJson(Document(h, ps)) <==> PlainNames(h, ps)
  {
    hide AllPlain, Clip, PlainMembers, PlainJson, PlainPools, HeadMembers;
    HeadPlain(h);
    PoolsPlain(ps);
    PlainConcat(HeadMembers(h), PoolMembers(ps));
    PlainObj(HeadMembers(h) + PoolMembers(ps));
  }

  /** A report on some pools is read as the document with every name and value in its
      place, and the newline behind it, exactly if no name has anything to escape. */
  lemma ReportRead(h: Head, ps: seq<PoolStats>)
    ensures HasAll(Document(h, ps), h, ps)
    ensures ReadJson(Print(Document(h, ps)) + "\n") == Got(Document(h, ps), "\n") <==> PlainNames(h, ps)
  {
    hide Document, Print, ReadJson, PlainJson, HasAll, PlainNames;
    DocumentHas(h, ps);
    DocumentPlain(h, ps);
    ReadBackIff(Document(h, ps), "\n");
  }

  /** Without a pool a reader does not get through. */
  lemma StrayComma(h: Head)
    requires AllPlain(Clip(h.source)) && AllPlain(Clip(h.version))
    ensures ReadJson("{" + PrintMembers(HeadMembers(h)) + ",}\n").Bad?
  {
    hide HeadMembers, PlainMembers, PrintMembers;
    HeadPlain(h);
    HeadIs(h);
    CommaBrace(HeadMembers(h), "\n");
    var t := PrintMembers(HeadMembers(h)) + ",}\n";
    assert t == PrintMembers(HeadMembers(h)) + ",}" + "\n";
    assert "{" + PrintMembers(HeadMembers(h)) + ",}\n" == "{" + t;
  }

  /** A buffer made for some pools takes every later report on them. */
  method Report(h0: Head, ps0: seq<PoolStats>, h: Head, ps: seq<PoolStats>) returns (ok: bool, text: string)
    requires Sound(h, ps) && h0.source == h.source && h0.version == h.version && SamePools(ps0, ps)
    requires 1 + HeadCost(h) + PoolsCost(ps) + 2 <= INT_MAX - 8
    ensures ok
    ensures ps != [] ==> text == Print(Document(h, ps)) + "\n"
    ensures ps != [] && PlainNames(h, ps) ==>
      var r := ReadJson(text); r.Got? && r.rest == "\n" && HasAll(r.value, h, ps)
    ensures ps == [] && PlainNames(h, ps) ==> ReadJson(text).Bad?
  {
    hide HeadMembers, Print, Document, SamePools, Sound, PlainPools, HasAll, ReadJson, PrintMembers;
    SamePoolsCost(ps0, ps);
    var buf := new Buffer(h0, ps0);
    ok := buf.MakeRsp(h, ps);
    text := buf.data[..buf.len];
    ReportRead(h, ps);
    if PlainNames(h, ps) {
      StrayComma(h);
    }
  }
}
