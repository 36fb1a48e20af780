/** The report of src/gf_stats.c: a printer that patches its own tail inside a buffer
    whose size was computed before. */
module StatsJson {

  // ---------- a plain printer ----------

  datatype Json = Str(text: string) | Num(n: int) | Obj(members: seq<Member>)
  datatype Member = Member(key: string, value: Json)

  /** Decimal digits. */
  function Digits(n: nat): string {
    if n < 10 then [Digit(n)] else Digits(n / 10) + [Digit(n % 10)]
  }

  function Digit(n: nat): char
    requires n < 10
  {
    "0123456789"[n]
  }

  function Dec(n: int): string {
    if n < 0 then "-" + Digits(-n) else Digits(n)
  }

  function Print(j: Json): string
    decreases j, 0
  {
    match j
    case Str(text) => "\"" + text + "\""
    case Num(n) => Dec(n)
    case Obj(members) => "{" + PrintMembers(members) + "}"
  }

  /** Objects stand off from their keys by a blank. */
  function PrintMember(m: Member): string
    decreases m, 1
  {
    "\"" + m.key + "\":" + (if m.value.Obj? then " " else "") + Print(m.value)
  }

  function PrintMembers(ms: seq<Member>): string
    decreases ms, 2
  {
    if ms == [] then ""
    else if |ms| == 1 then PrintMember(ms[0])
    else PrintMember(ms[0]) + Separator(ms[0]) + PrintMembers(ms[1..])
  }

  /** Values are set off by a comma and a blank, objects by a comma. */
  function Separator(m: Member): string {
    if m.value.Obj? then "," else ", "
  }

  // ---------- the report as it grows ----------

  /** Members with a separator behind each of them. */
  function Trail(ms: seq<Member>): string {
    if ms == [] then "" else Trail(ms[..|ms| - 1]) + PrintMember(ms[|ms| - 1]) + Separator(ms[|ms| - 1])
  }

  lemma {:induction false} PrintPush(ms: seq<Member>, m: Member)
    requires ms != []
    ensures PrintMembers(ms + [m]) == PrintMembers(ms) + Separator(ms[|ms| - 1]) + PrintMember(m)
  {
    hide PrintMember, Separator;
    if |ms| == 1 {
      assert (ms + [m])[1..] == [m];
    } else {
      assert (ms + [m])[1..] == ms[1..] + [m];
      PrintPush(ms[1..], m);
      Regroup(PrintMember(ms[0]) + Separator(ms[0]), PrintMembers(ms[1..]), Separator(ms[|ms| - 1]), PrintMember(m));
    }
  }

  lemma Regroup(a: string, b: string, c: string, d: string)
    ensures a + (b + c + d) == a + b + c + d
  {
  }

  /** That is the printed text and one separator too many. */
  lemma {:induction false} TrailPrints(ms: seq<Member>)
    requires ms != []
    ensures Trail(ms) == PrintMembers(ms) + Separator(ms[|ms| - 1])
  {
    hide PrintMember, Separator;
    var k := |ms| - 1;
    if k > 0 {
      TrailPrints(ms[..k]);
      PrintPush(ms[..k], ms[k]);
      assert ms[..k] + [ms[k]] == ms;
    }
  }

  lemma TrailPush(ms: seq<Member>, m: Member)
    ensures Trail(ms + [m]) == Trail(ms) + (PrintMember(m) + Separator(m))
  {
    hide PrintMember, Separator;
    assert (ms + [m])[..|ms|] == ms;
  }

  /** stats_end_nesting on the text: the last separator gives way to the closing brace. */
  function Closed(t: string): string
    requires |t| >= 2
  {
    if t[|t| - 2] == ',' then t[..|t| - 2] + "}," else t[..|t| - 1] + "},"
  }

  /** It closes what was opened, whatever came last inside; and the tail it looks at is
      one of the two it knows. */
  lemma Closes(pre: string, ms: seq<Member>)
    requires ms != []
    ensures
      var t := pre + Trail(ms);
      && |t| >= 2 && (t[|t| - 2..] == ", " || t[|t| - 2..] == "},")
      && Closed(t) == pre + PrintMembers(ms) + "},"
  {
    hide Trail, PrintMembers, Separator, Closed;
    TrailPrints(ms);
    var last := ms[|ms| - 1];
    var q := pre + PrintMembers(ms);
    assert pre + Trail(ms) == q + Separator(last);
    if last.value.Obj? {
      EndsInBrace(ms);
      ClosesObject(q);
      assert Separator(last) == "," by { SeparatorIs(last); }
    } else {
      ClosesValue(q);
      assert Separator(last) == ", " by { SeparatorIs(last); }
    }
  }

  lemma SeparatorIs(m: Member)
    ensures Separator(m) == if m.value.Obj? then "," else ", "
  {
  }

  lemma ClosesValue(q: string)
    ensures (q + ", ")[|q|..] == ", " && Closed(q + ", ") == q + "},"
  {
    var t := q + ", ";
    assert t[..|t| - 2] == q;
  }

  lemma ClosesObject(q: string)
    requires q != "" && q[|q| - 1] == '}'
    ensures (q + ",")[|q| - 1..] == "}," && Closed(q + ",") == q + "},"
  {
    var t := q + ",";
    assert t[..|t| - 1] == q;
  }

  lemma {:induction false} EndsInBrace(ms: seq<Member>)
    requires ms != [] && ms[|ms| - 1].value.Obj?
    ensures PrintMembers(ms) != "" && PrintMembers(ms)[|PrintMembers(ms)| - 1] == '}'
    decreases |ms|
  {
    hide Print;
    if |ms| == 1 {
      var text := Print(ms[0].value);
      ObjectEnds(ms[0].value);
      assert PrintMember(ms[0])[|PrintMember(ms[0])| - |text|..] == text;
    } else {
      EndsInBrace(ms[1..]);
    }
  }

  lemma ObjectEnds(j: Json)
    requires j.Obj?
    ensures Print(j) != "" && Print(j)[|Print(j)| - 1] == '}'
  {
  }

  // ---------- lengths ----------

  function Pow10(d: nat): nat {
    if d == 0 then 1 else 10 * Pow10(d - 1)
  }

  lemma {:induction false} DigitsLength(n: nat, d: nat)
    requires d > 0 && n < Pow10(d)
    ensures 1 <= |Digits(n)| <= d
  {
    if n >= 10 {
      assert d > 1 && n / 10 < Pow10(d - 1);
      DigitsLength(n / 10, d - 1);
    }
  }

  const INT64_LIMIT := 0x8000_0000_0000_0000
  const MAX_DIGITS := 20

  predicate Int64(n: int) {
    -INT64_LIMIT <= n < INT64_LIMIT
  }

  lemma DecLength(n: int)
    requires Int64(n)
    ensures 1 <= |Dec(n)| <= MAX_DIGITS
  {
    assert Pow10(5) == 100000 && Pow10(10) == 100000 * Pow10(5) && Pow10(15) == 100000 * Pow10(10);
    assert Pow10(19) == 10000 * Pow10(15);
    DigitsLength(if n < 0 then -n else n, 19);
  }
}
