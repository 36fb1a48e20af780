/** A reader of JSON text as RFC 8259 has it, but for escapes, fractions and exponents, and
    what it finds in the printed text. */
module JsonReader {
  import opened StatsJson

  datatype Read<T> = Got(value: T, rest: string) | Bad

  predicate IsDigit(c: char) {
    '0' <= c <= '9'
  }

  /** Characters that stand for themselves in a string. */
  predicate Plain(c: char) {
    c >= ' ' && c != '"' && c != '\\'
  }

  function Blanks(s: string): (r: string)
    ensures |r| <= |s|
  {
    if s != "" && (s[0] == ' ' || s[0] == '\n' || s[0] == '\t' || s[0] == '\r') then Blanks(s[1..]) else s
  }

  /** The digits at the front, the most significant first. */
  function ReadDigits(s: string, before: nat): (r: (nat, string))
    ensures |r.1| <= |s|
  {
    if s == "" || !IsDigit(s[0]) then (before, s)
    else ReadDigits(s[1..], 10 * before + (s[0] as int - '0' as int))
  }

  /** No digit follows a leading zero. */
  function ReadNat(s: string): (r: Read<nat>)
    ensures r.Got? ==> |r.rest| < |s|
  {
    if s == "" || !IsDigit(s[0]) then Bad
    else if s[0] == '0' then Got(0, s[1..])
    else
      var (n, rest) := ReadDigits(s[1..], s[0] as int - '0' as int);
      Got(n, rest)
  }

  function ReadInt(s: string): (r: Read<int>)
    ensures r.Got? ==> |r.rest| < |s|
  {
    if s != "" && s[0] == '-' then
      match ReadNat(s[1..])
      case Got(n, rest) =>
        var negative: int := 0 - n;
        Got(negative, rest)
      case Bad => Bad
    else
      match ReadNat(s)
      case Got(n, rest) => Got(n, rest)
      case Bad => Bad
  }

  /** The rest of a string whose opening quote has been read. */
  function ReadText(s: string): (r: Read<string>)
    ensures r.Got? ==> |r.rest| < |s|
  {
    if s == "" then Bad
    else if s[0] == '"' then Got("", s[1..])
    else if !Plain(s[0]) then Bad
    else
      match ReadText(s[1..])
      case Got(text, rest) => Got([s[0]] + text, rest)
      case Bad => Bad
  }

  function ReadJson(s: string): (r: Read<Json>)
    ensures r.Got? ==> |r.rest| < |s|
    decreases |s|, 0
  {
    if s == "" then Bad
    else if s[0] == '"' then
      match ReadText(s[1..])
      case Got(text, rest) => Got(Str(text), rest)
      case Bad => Bad
    else if s[0] == '{' then
      var t := Blanks(s[1..]);
      if t != "" && t[0] == '}' then Got(Obj([]), t[1..])
      else
        match ReadMembers(t)
        case Got(ms, rest) => Got(Obj(ms), rest)
        case Bad => Bad
    else
      match ReadInt(s)
      case Got(n, rest) => Got(Num(n), rest)
      case Bad => Bad
  }

  /** Members with a comma between any two, up to the closing brace. */
  function ReadMembers(s: string): (r: Read<seq<Member>>)
    ensures r.Got? ==> |r.rest| < |s|
    decreases |s|, 1
  {
    match ReadMember(Blanks(s))
    case Bad => Bad
    case Got(m, rest) =>
      var t := Blanks(rest);
      if t != "" && t[0] == '}' then Got([m], t[1..])
      else if t != "" && t[0] == ',' then
        match ReadMembers(t[1..])
        case Got(ms, rest') => Got([m] + ms, rest')
        case Bad => Bad
      else Bad
  }

  function ReadMember(s: string): (r: Read<Member>)
    ensures r.Got? ==> |r.rest| < |s|
    decreases |s|, 0
  {
    if s == "" || s[0] != '"' then Bad
    else
      match ReadText(s[1..])
      case Bad => Bad
      case Got(key, rest) =>
        var t := Blanks(rest);
        if t == "" || t[0] != ':' then Bad
        else
          match ReadJson(Blanks(t[1..]))
          case Got(value, rest') => Got(Member(key, value), rest')
          case Bad => Bad
  }

  // ---------- numbers ----------

  lemma DigitIs(d: nat)
    requires d < 10
    ensures IsDigit(Digit(d)) && Digit(d) as int == d + '0' as int
  {
  }

  /** The digits of a number are read as that number, and so is what stands behind them. */
  lemma {:induction false} DigitsRead(n: nat, rest: string)
    ensures ReadDigits(Digits(n) + rest, 0) == ReadDigits(rest, n)
  {
    var d := n % 10;
    var tail := [Digit(d)] + rest;
    OneDigit(d, rest, n / 10);
    if n < 10 {
      assert Digits(n) + rest == tail;
    } else {
      assert Digits(n) == Digits(n / 10) + [Digit(d)];
      hide *;
      DigitsRead(n / 10, tail);
      Further(Digits(n / 10), Digit(d), rest);
    }
  }

  lemma Further(front: string, c: char, rest: string)
    ensures (front + [c]) + rest == front + ([c] + rest)
  {
  }

  lemma OneDigit(d: nat, rest: string, before: nat)
    requires d < 10
    ensures ReadDigits([Digit(d)] + rest, before) == ReadDigits(rest, 10 * before + d)
  {
    DigitIs(d);
    assert ([Digit(d)] + rest)[1..] == rest;
  }

  /** There is no leading zero but in 0 itself. */
  lemma {:induction false} DigitsFirst(n: nat)
    ensures Digits(n) != "" && IsDigit(Digits(n)[0]) && (Digits(n)[0] == '0' ==> n == 0 && Digits(n) == "0")
  {
    DigitIs(n % 10);
    if n >= 10 {
      DigitsFirst(n / 10);
    }
  }

  /** A printed number that is not followed by a digit is read back. */
  lemma DecRead(n: int, rest: string)
    requires rest == "" || !IsDigit(rest[0])
    ensures ReadInt(Dec(n) + rest) == Got(n, rest)
    ensures Dec(n) != "" && (IsDigit(Dec(n)[0]) || (Dec(n)[0] == '-' && n < 0))
  {
    hide Digits;
    if n < 0 {
      assert (Dec(n) + rest)[1..] == Digits(-n) + rest;
      NatRead(-n, rest);
    } else {
      NatRead(n, rest);
    }
  }

  lemma NatRead(n: nat, rest: string)
    requires rest == "" || !IsDigit(rest[0])
    ensures ReadNat(Digits(n) + rest) == Got(n, rest) && Digits(n) != "" && IsDigit(Digits(n)[0])
  {
    hide Digits;
    DigitsRead(n, rest);
    DigitsFirst(n);
    var s := Digits(n) + rest;
    if s[0] == '0' {
      assert s[1..] == rest;
    }
  }

  // ---------- strings ----------

  ghost predicate AllPlain(text: string) {
    forall i :: 0 <= i < |text| ==> Plain(text[i])
  }

  lemma {:induction false} TextRead(text: string, rest: string)
    requires AllPlain(text)
    ensures ReadText(text + "\"" + rest) == Got(text, rest)
  {
    var s := text + "\"" + rest;
    if text == "" {
      assert s[1..] == rest;
    } else {
      assert s[1..] == text[1..] + "\"" + rest;
      TextRead(text[1..], rest);
      assert [text[0]] + text[1..] == text;
    }
  }

  lemma {:induction false} TextPlain(s: string)
    ensures ReadText(s).Got? ==> AllPlain(ReadText(s).value)
  {
    if s != "" {
      TextPlain(s[1..]);
    }
  }

  // ---------- documents ----------

  /** All strings and keys are plain. */
  ghost predicate PlainJson(j: Json) {
    match j
    case Str(text) => AllPlain(text)
    case Num(_) => true
    case Obj(members) => forall m :: m in members ==> AllPlain(m.key) && PlainJson(m.value)
  }

  ghost predicate PlainMembers(ms: seq<Member>) {
    forall m :: m in ms ==> AllPlain(m.key) && PlainJson(m.value)
  }

  lemma PlainObj(ms: seq<Member>)
    ensures PlainJson(Obj(ms)) <==> PlainMembers(ms)
  {
  }

  lemma PlainConcat(ms: seq<Member>, ns: seq<Member>)
    ensures PlainMembers(ms + ns) <==> PlainMembers(ms) && PlainMembers(ns)
  {
    hide AllPlain, PlainJson;
    if PlainMembers(ms + ns) {
      forall m | m in ms || m in ns ensures AllPlain(m.key) && PlainJson(m.value) {
        assert m in ms + ns;
      }
    }
  }

  lemma PlainOne(m: Member)
    ensures PlainMembers([m]) <==> AllPlain(m.key) && PlainJson(m.value)
  {
    hide AllPlain, PlainJson;
    assert m in [m];
  }

  lemma BlanksNone(s: string)
    requires s != "" && s[0] != ' ' && s[0] != '\n' && s[0] != '\t' && s[0] != '\r'
    ensures Blanks(s) == s
  {
  }

  lemma BlanksOne(s: string)
    ensures Blanks(" " + s) == Blanks(s)
  {
    assert (" " + s)[1..] == s;
  }

  /** What may stand behind a value. */
  ghost predicate Stops(rest: string) {
    rest == "" || !IsDigit(rest[0])
  }

  lemma PrintFirst(j: Json)
    ensures Print(j) != "" && Print(j)[0] != ' ' && Print(j)[0] != '\n' && Print(j)[0] != '\t' && Print(j)[0] != '\r'
  {
    hide Dec;
    if j.Num? {
      DecRead(j.n, "");
    }
  }

  /** The printed text of a document with plain strings is read as that document, whatever
      follows, unless that is a digit. */
  lemma {:induction false} ReadBack(j: Json, rest: string)
    requires PlainJson(j) && Stops(rest)
    ensures ReadJson(Print(j) + rest) == Got(j, rest)
    decreases j, 0
  {
    hide Dec, ReadInt, ReadText, ReadMembers, Blanks;
    var s := Print(j) + rest;
    match j {
      case Str(text) =>
        TextRead(text, rest);
        assert s[1..] == text + "\"" + rest;
      case Num(n) =>
        DecRead(n, rest);
        assert s[0] == Dec(n)[0];
      case Obj(ms) =>
        var t := PrintMembers(ms) + "}" + rest;
        assert s[0] == '{' && s[1..] == t;
        if ms == [] {
          BlanksNone(t);
          assert t == "}" + rest && t[1..] == rest;
        } else {
          FirstQuote(ms, t);
          BlanksNone(t);
          ReadBackMembers(ms, rest);
        }
    }
  }

  lemma FirstQuote(ms: seq<Member>, t: string)
    requires ms != [] && PrintMembers(ms) <= t
    ensures t != "" && t[0] == '"'
  {
    hide Print;
    assert PrintMember(ms[0]) != "" && PrintMember(ms[0])[0] == '"';
  }

  lemma {:induction false} ReadBackMembers(ms: seq<Member>, rest: string)
    requires ms != [] && forall m :: m in ms ==> AllPlain(m.key) && PlainJson(m.value)
    ensures ReadMembers(PrintMembers(ms) + "}" + rest) == Got(ms, rest)
    decreases ms, 2
  {
    hide PrintMember, PrintMembers, ReadMember, ReadMembers, Blanks, PlainJson, AllPlain, Separator;
    var m := ms[0];
    PrintedMembers(ms, "}" + rest);
    assert PrintMembers(ms) + ("}" + rest) == PrintMembers(ms) + "}" + rest;
    if |ms| == 1 {
      ReadBackMember(m, "}" + rest);
      LastStep(m, PrintMember(m), rest);
      assert ms == [m];
    } else {
      var more := PrintMembers(ms[1..]) + ("}" + rest);
      assert more == PrintMembers(ms[1..]) + "}" + rest;
      SkipBlank(m, more);
      ReadBackMember(m, Separator(m) + more);
      ReadBackMembers(ms[1..], rest);
      MoreStep(m, PrintMember(m), Separator(m) + more, ms[1..], rest);
      assert ms == [m] + ms[1..];
    }
  }

  /** The text of some members begins with that of the first. */
  lemma PrintedMembers(ms: seq<Member>, behind: string)
    requires ms != []
    ensures |ms| == 1 ==> PrintMembers(ms) + behind == PrintMember(ms[0]) + behind
    ensures |ms| > 1 ==>
      PrintMembers(ms) + behind == PrintMember(ms[0]) + (Separator(ms[0]) + (PrintMembers(ms[1..]) + behind))
    ensures PrintMember(ms[0]) != "" && PrintMember(ms[0])[0] == '"'
  {
    hide PrintMember, Separator;
    MemberQuote(ms[0]);
    if |ms| > 1 {
      var a, b, c := PrintMember(ms[0]), Separator(ms[0]), PrintMembers(ms[1..]);
      assert PrintMembers(ms) == a + b + c;
      hide PrintMembers;
      Nest(a, b, c, behind);
    }
  }

  lemma Nest(a: string, b: string, c: string, d: string)
    ensures a + b + c + d == a + (b + (c + d))
  {
  }

  lemma MemberQuote(m: Member)
    ensures PrintMember(m) != "" && PrintMember(m)[0] == '"'
  {
    hide Print;
  }

  /** The last member of an object. */
  lemma LastStep(m: Member, text: string, rest: string)
    requires text != "" && text[0] == '"' && ReadMember(text + ("}" + rest)) == Got(m, "}" + rest)
    ensures ReadMembers(text + ("}" + rest)) == Got([m], rest)
  {
    hide ReadMember;
    BlanksNone(text + ("}" + rest));
    BlanksNone("}" + rest);
    assert ("}" + rest)[1..] == rest;
  }

  /** A member in front of others. */
  lemma MoreStep(m: Member, text: string, behind: string, ms: seq<Member>, rest: string)
    requires text != "" && text[0] == '"' && ReadMember(text + behind) == Got(m, behind)
    requires behind != "" && behind[0] == ',' && ReadMembers(behind[1..]) == Got(ms, rest)
    ensures ReadMembers(text + behind) == Got([m] + ms, rest)
  {
    hide ReadMember;
    BlanksNone(text + behind);
    BlanksNone(behind);
  }

  /** A closing brace does not follow a comma. */
  lemma {:induction false} CommaBrace(ms: seq<Member>, rest: string)
    requires ms != [] && PlainMembers(ms)
    ensures
      var t := PrintMembers(ms) + ",}" + rest;
      ReadMembers(t).Bad? && ReadJson("{" + t).Bad?
    decreases |ms|
  {
    hide PrintMember, ReadMember, Blanks, PlainJson, PrintMembers, ReadMembers;
    var m, t := ms[0], PrintMembers(ms) + ",}" + rest;
    FirstQuote(ms, t);
    BlanksNone(t);
    CommaBraceMembers(ms, rest);
    assert ("{" + t)[1..] == t;
  }

  lemma {:induction false} CommaBraceMembers(ms: seq<Member>, rest: string)
    requires ms != [] && PlainMembers(ms)
    ensures ReadMembers(PrintMembers(ms) + ",}" + rest).Bad?
    decreases |ms|
  {
    hide PrintMember, PrintMembers, ReadMember, ReadMembers, Blanks, PlainJson, AllPlain, Separator;
    var m, behind := ms[0], ",}" + rest;
    PrintedMembers(ms, behind);
    assert PrintMembers(ms) + behind == PrintMembers(ms) + ",}" + rest;
    if |ms| == 1 {
      ReadBackMember(m, behind);
      assert behind[1..] == "}" + rest;
      NoMember("}" + rest);
      BadStep(m, PrintMember(m), behind);
    } else {
      var more := PrintMembers(ms[1..]) + behind;
      assert more == PrintMembers(ms[1..]) + ",}" + rest;
      SkipBlank(m, more);
      ReadBackMember(m, Separator(m) + more);
      CommaBraceMembers(ms[1..], rest);
      BadStep(m, PrintMember(m), Separator(m) + more);
    }
  }

  /** A member in front of something that is none. */
  lemma BadStep(m: Member, text: string, behind: string)
    requires text != "" && text[0] == '"' && ReadMember(text + behind) == Got(m, behind)
    requires behind != "" && behind[0] == ',' && ReadMembers(behind[1..]).Bad?
    ensures ReadMembers(text + behind).Bad?
  {
    hide ReadMember;
    BlanksNone(text + behind);
    BlanksNone(behind);
  }

  lemma NoMember(s: string)
    requires s != "" && s[0] == '}'
    ensures ReadMembers(s).Bad?
  {
    BlanksNone(s);
  }

  /** The blank behind a comma makes no difference. */
  lemma SkipBlank(m: Member, more: string)
    ensures var behind := Separator(m) + more;
      behind[0] == ',' && ReadMembers(behind[1..]) == ReadMembers(more)
  {
    hide ReadMember, Blanks;
    var behind := Separator(m) + more;
    if m.value.Obj? {
      assert behind[1..] == more;
    } else {
      assert behind[1..] == " " + more;
      BlanksOne(more);
    }
  }

  lemma {:induction false} ReadBackMember(m: Member, rest: string)
    requires AllPlain(m.key) && PlainJson(m.value) && Stops(rest)
    ensures ReadMember(PrintMember(m) + rest) == Got(m, rest)
    decreases m, 1
  {
    hide Print, ReadText, ReadJson, Blanks, PlainJson;
    var s := PrintMember(m) + rest;
    var value := Print(m.value) + rest;
    var behind := ":" + (if m.value.Obj? then " " else "") + value;
    assert s[0] == '"' && s[1..] == m.key + "\"" + behind;
    TextRead(m.key, behind);
    BlanksNone(behind);
    PrintFirst(m.value);
    BlanksNone(value);
    if m.value.Obj? {
      assert behind[1..] == " " + value;
      BlanksOne(value);
    } else {
      assert behind[1..] == value;
    }
    ReadBack(m.value, rest);
  }

  /** The reader finds plain strings only. */
  lemma {:induction false} ReadPlain(s: string)
    ensures ReadJson(s).Got? ==> PlainJson(ReadJson(s).value)
    decreases |s|, 0
  {
    hide ReadInt, AllPlain;
    if s != "" && s[0] == '"' {
      TextPlain(s[1..]);
    } else if s != "" && s[0] == '{' {
      var t := Blanks(s[1..]);
      ReadPlainMembers(t);
    }
  }

  lemma {:induction false} ReadPlainMembers(s: string)
    ensures ReadMembers(s).Got? ==> forall m :: m in ReadMembers(s).value ==> AllPlain(m.key) && PlainJson(m.value)
    decreases |s|, 1
  {
    hide AllPlain, PlainJson, ReadMember;
    var u := Blanks(s);
    ReadPlainMember(u);
    if ReadMember(u).Got? {
      var t := Blanks(ReadMember(u).rest);
      if t != "" && t[0] == ',' {
        ReadPlainMembers(t[1..]);
      }
    }
  }

  lemma {:induction false} ReadPlainMember(s: string)
    ensures ReadMember(s).Got? ==> AllPlain(ReadMember(s).value.key) && PlainJson(ReadMember(s).value.value)
    decreases |s|, 0
  {
    hide AllPlain, PlainJson, ReadJson;
    if s != "" && s[0] == '"' {
      TextPlain(s[1..]);
      var key := ReadText(s[1..]);
      if key.Got? {
        var t := Blanks(key.rest);
        if t != "" && t[0] == ':' {
          ReadPlain(Blanks(t[1..]));
        }
      }
    }
  }

  /** The printed text is read back exactly if there is nothing in it to escape. */
  lemma ReadBackIff(j: Json, rest: string)
    requires Stops(rest)
    ensures ReadJson(Print(j) + rest) == Got(j, rest) <==> PlainJson(j)
  {
    hide ReadJson, Print, PlainJson;
    ReadPlain(Print(j) + rest);
    if PlainJson(j) {
      ReadBack(j, rest);
    }
  }

  /** A name that is a single quote is not found again. */
  lemma QuoteLost(value: int)
    ensures
      var j := Obj([Member("\"", Num(value))]);
      ReadJson(Print(j)) != Got(j, "")
  {
    var j := Obj([Member("\"", Num(value))]);
    assert !AllPlain("\"") by {
      assert !Plain("\""[0]);
    }
    assert !PlainJson(j) by {
      assert Member("\"", Num(value)) in j.members;
    }
    hide *;
    ReadBackIff(j, "");
    assert Print(j) + "" == Print(j);
  }
}
