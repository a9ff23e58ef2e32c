/** CPU lists: the strict parser and the formatter of the run configuration
    (experiment/run_config.c) and the analyzer's canonical form
    (analysis/analyze_experiment.py). */
module CpuList {
  import opened Wrappers

  const CPU_SETSIZE := 1024
  const LIST_SIZE := 4096

  predicate IsDigit(c: char) {
    '0' <= c <= '9'
  }

  function DigitValue(c: char): (d: nat)
    requires IsDigit(c)
    ensures d < 10
  {
    (c - '0') as nat
  }

  function DigitChar(d: nat): (c: char)
    requires d < 10
    ensures IsDigit(c) && DigitValue(c) == d
  {
    '0' + d as char
  }

  predicate AllDigits(s: string) {
    forall i | 0 <= i < |s| :: IsDigit(s[i])
  }

  // ----- numbers

  function Decimal(n: nat): (s: string)
    ensures |s| > 0 && AllDigits(s)
  {
    if n < 10 then [DigitChar(n)] else Decimal(n / 10) + [DigitChar(n % 10)]
  }

  /** The value of a digit string, of any length, read after a prefix worth `acc`. */
  function IntFrom(acc: nat, s: string): (n: nat)
    requires AllDigits(s)
    decreases |s|
  {
    if s == "" then acc else IntFrom(acc * 10 + DigitValue(s[0]), s[1..])
  }

  function IntOf(s: string): (n: nat)
    requires AllDigits(s)
  {
    IntFrom(0, s)
  }

  datatype Reading = Reading(value: nat, rest: string)

  /** The parser's digit loop: it stops at the first non-digit and gives up as soon as the
      value leaves the range. */
  function Read(s: string, acc: nat): (r: Option<Reading>)
    ensures r.Some? ==> |r.value.rest| <= |s|
    decreases |s|
  {
    if s == "" || !IsDigit(s[0]) then Some(Reading(acc, s))
    else if acc * 10 + DigitValue(s[0]) >= CPU_SETSIZE then None
    else Read(s[1..], acc * 10 + DigitValue(s[0]))
  }

  /** A number must start with a digit. */
  function ReadNumber(s: string): (r: Option<Reading>)
    ensures r.Some? ==> |r.value.rest| < |s|
  {
    if s == "" || !IsDigit(s[0]) then None
    else if DigitValue(s[0]) >= CPU_SETSIZE then None
    else Read(s[1..], DigitValue(s[0]))
  }

  // ----- the parser

  datatype Field = Field(first: nat, last: nat, rest: string)

  /** One number or range, and what follows it. */
  function ReadField(s: string): (r: Option<Field>)
    ensures r.Some? ==> |r.value.rest| < |s|
  {
    var a := ReadNumber(s);
    if a.None? then None
    else if a.value.rest != "" && a.value.rest[0] == '-' then
      var b := ReadNumber(a.value.rest[1..]);
      if b.None? then None else Some(Field(a.value.value, b.value.value, b.value.rest))
    else Some(Field(a.value.value, a.value.value, a.value.rest))
  }

  function Range(first: nat, last: int): (r: set<nat>)
    ensures forall n :: n in r <==> first <= n <= last
    decreases last - first
  {
    if last < first then {} else Range(first, last - 1) + {last}
  }

  predicate Fresh(first: nat, last: nat, acc: set<nat>) {
    forall n: nat | first <= n <= last :: n !in acc
  }

  /** What one field decides: malformed, overlapping and descending ranges are refused. */
  datatype Turn = Refuse | Accept(cpus: set<nat>) | More(cpus: set<nat>, rest: string)

  function TurnOf(s: string, acc: set<nat>): (t: Turn)
    ensures t.More? ==> |t.rest| < |s|
  {
    var r := ReadField(s);
    if r.None? then Refuse else FieldTurn(r.value, acc)
  }

  function FieldTurn(f: Field, acc: set<nat>): (t: Turn)
    ensures t.More? ==> |t.rest| < |f.rest|
  {
    if f.last < f.first || !Fresh(f.first, f.last, acc) then Refuse
    else if f.rest == "" then Accept(acc + Range(f.first, f.last))
    else if f.rest[0] != ',' || |f.rest| == 1 then Refuse
    else More(acc + Range(f.first, f.last), f.rest[1..])
  }

  /** run_parse_cpus, from a position where `acc` has been read. */
  function ParseFrom(s: string, acc: set<nat>): (r: Option<set<nat>>)
    decreases |s|
  {
    match TurnOf(s, acc)
    case Refuse => None
    case Accept(cpus) => Some(cpus)
    case More(cpus, rest) => ParseFrom(rest, cpus)
  }

  function Parse(s: string): (r: Option<set<nat>>) {
    ParseFrom(s, {})
  }

  method ScanNumber(text: string, start: nat) returns (ok: bool, value: nat, q: nat)
    requires start <= |text|
    ensures ok == ReadNumber(text[start..]).Some?
    ensures ok ==> start < q <= |text| && ReadNumber(text[start..]) == Some(Reading(value, text[q..]))
  {
    q, value := start, 0;
    if q == |text| || !IsDigit(text[q]) {
      return false, 0, q;
    }
    value := DigitValue(text[q]);
    q := q + 1;
    assert text[start..][1..] == text[q..];
    while q < |text| && IsDigit(text[q])
      invariant start < q <= |text|
      invariant ReadNumber(text[start..]) == Read(text[q..], value)
      decreases |text| - q
    {
      assert text[q..][1..] == text[q + 1..];
      value := value * 10 + DigitValue(text[q]);
      q := q + 1;
      if value >= CPU_SETSIZE {
        return false, 0, q;
      }
    }
    ok := true;
  }

  method ScanField(text: string, start: nat) returns (ok: bool, first: nat, last: nat, q: nat)
    requires start <= |text|
    ensures ok == ReadField(text[start..]).Some?
    ensures ok ==> start < q <= |text| && ReadField(text[start..]) == Some(Field(first, last, text[q..]))
  {
    ok, first, q := ScanNumber(text, start);
    last := first;
    if !ok {
      return;
    }
    if q < |text| && text[q] == '-' {
      assert text[q..][1..] == text[q + 1..];
      ok, last, q := ScanNumber(text, q + 1);
    }
  }

  /** Adds a range CPU by CPU and stops at the first one that is there already. */
  method AddRange(cpus: set<nat>, first: nat, last: nat) returns (ok: bool, all: set<nat>)
    requires first <= last
    ensures ok <==> Fresh(first, last, cpus)
    ensures ok ==> all == cpus + Range(first, last)
  {
    all := cpus;
    for n := first to last + 1
      invariant first <= n && all == cpus + Range(first, n - 1) && forall m | first <= m < n :: m !in cpus
    {
      if n in all {
        return false, all;
      }
      all := all + {n};
    }
    ok := true;
  }

  /** One turn of the outer loop. */
  method ParseTurn(text: string, q: nat, cpus: set<nat>) returns (t: Turn, next: nat)
    requires q < |text|
    ensures t == TurnOf(text[q..], cpus)
    ensures t.More? ==> q < next < |text| && t.rest == text[next..]
  {
    next := q;
    var ok, first, last, after := ScanField(text, q);
    if !ok || last < first {
      return Refuse, q;
    }
    var all;
    ok, all := AddRange(cpus, first, last);
    if !ok {
      return Refuse, q;
    }
    if after == |text| {
      return Accept(all), q;
    }
    if text[after] != ',' || after + 1 == |text| {
      return Refuse, q;
    }
    assert text[after..][1..] == text[after + 1..];
    return More(all, text[after + 1..]), after + 1;
  }

  /** run_parse_cpus. */
  method RunParseCpus(text: string) returns (r: Option<set<nat>>)
    ensures r == Parse(text)
  {
    var cpus: set<nat> := {};
    var q := 0;
    assert text[0..] == text;
    while q < |text|
      invariant q <= |text| && Parse(text) == ParseFrom(text[q..], cpus) && (q == |text| ==> text == "")
      decreases |text| - q
    {
      var t, next := ParseTurn(text, q, cpus);
      if t.Refuse? {
        return None;
      }
      if t.Accept? {
        return Some(t.cpus);
      }
      cpus, q := t.cpus, next;
    }
    return None;
  }

  // ----- the formatter

  /** The members of `cpus` below n, in ascending order. */
  function Members(cpus: set<nat>, n: nat): (ns: seq<nat>)
    ensures forall i | 0 <= i < |ns| :: ns[i] in cpus && ns[i] < n
  {
    if n == 0 then [] else if n - 1 in cpus then Members(cpus, n - 1) + [n - 1] else Members(cpus, n - 1)
  }

  predicate Ascending(ns: seq<nat>) {
    forall i, j | 0 <= i < j < |ns| :: ns[i] < ns[j]
  }

  lemma {:induction false} MembersSorted(cpus: set<nat>, n: nat)
    ensures Ascending(Members(cpus, n))
    ensures forall m: nat | m in cpus && m < n :: m in Members(cpus, n)
    decreases n
  {
    if n > 0 {
      MembersSorted(cpus, n - 1);
    }
  }

  function Text(ns: seq<nat>): (s: string) {
    if ns == [] then "" else if |ns| == 1 then Decimal(ns[0]) else Text(ns[..|ns| - 1]) + "," + Decimal(ns[|ns| - 1])
  }

  /** The canonical text of a CPU set below `limit`: ascending, comma separated. */
  function Format(cpus: set<nat>, limit: nat): (s: string) {
    Text(Members(cpus, limit))
  }

  /** run_format_cpus (where `limit` is CPU_SETSIZE): snprintf never writes past the buffer;
      a text that does not fit with its terminator is refused. */
  method RunFormatCpus(cpus: set<nat>, limit: nat, size: nat) returns (r: Option<string>)
    ensures r.Some? <==> |Format(cpus, limit)| < size
    ensures r.Some? ==> r.value == Format(cpus, limit)
  {
    var text := "";
    if size == 0 {
      return None;
    }
    for n := 0 to limit
      invariant text == Text(Members(cpus, n)) && |text| < size
    {
      FormatStep(cpus, n);
      if n in cpus {
        var written := (if text != "" then "," else "") + Decimal(n);
        if |written| >= size - |text| {
          TextLength(cpus, n + 1, limit);
          return None;
        }
        text := text + written;
      }
    }
    return Some(text);
  }

  lemma TextGrows(ns: seq<nat>, n: nat)
    ensures Text(ns + [n]) == Text(ns) + (if Text(ns) != "" then "," else "") + Decimal(n)
    ensures (Text(ns) == "") <==> ns == []
  {
    assert (ns + [n])[..|ns|] == ns;
  }

  /** What one CPU adds to the text. */
  lemma FormatStep(cpus: set<nat>, n: nat)
    ensures var text := Text(Members(cpus, n));
            Text(Members(cpus, n + 1)) == text + if n in cpus then (if text != "" then "," else "") + Decimal(n) else ""
  {
    TextGrows(Members(cpus, n), n);
    var text := Text(Members(cpus, n));
    assert text + "" == text;
    assert text + (if text != "" then "," else "") + Decimal(n) == text + ((if text != "" then "," else "") + Decimal(n));
  }

  lemma {:induction false} TextLength(cpus: set<nat>, m: nat, n: nat)
    requires m <= n
    ensures |Text(Members(cpus, m))| <= |Text(Members(cpus, n))|
    decreases n
  {
    if m < n {
      TextLength(cpus, m, n - 1);
      FormatStep(cpus, n - 1);
    }
  }

  // ----- the buffer is always large enough

  function Width(n: nat): nat {
    if n < 10 then 1 else if n < 100 then 2 else if n < 1000 then 3 else 4
  }

  lemma DecimalWidth(n: nat)
    requires n < 10000
    ensures |Decimal(n)| == Width(n)
  {
    if n >= 10 {
      DecimalWidth(n / 10);
    }
  }

  /** Room for every number below n with a comma after it. */
  function Room(n: nat): nat {
    if n <= 10 then 2 * n else if n <= 100 then 20 + 3 * (n - 10) else if n <= 1000 then 290 + 4 * (n - 100) else 3890 + 5 * (n - 1000)
  }

  lemma RoomGrows(n: nat)
    requires n < CPU_SETSIZE
    ensures Room(n + 1) == Room(n) + Width(n) + 1
  {
  }

  lemma {:induction false} TextFits(cpus: set<nat>, n: nat)
    requires n <= CPU_SETSIZE
    ensures Text(Members(cpus, n)) == "" || |Text(Members(cpus, n))| < Room(n)
    decreases n
  {
    if n > 0 {
      TextFits(cpus, n - 1);
      DecimalWidth(n - 1);
      FormatStep(cpus, n - 1);
      RoomGrows(n - 1);
    }
  }

  /** No CPU set needs more than 4009 characters: formatting into the list buffer of a run
      configuration never fails. */
  lemma FormatFits(cpus: set<nat>, limit: nat)
    requires limit <= CPU_SETSIZE
    ensures |Format(cpus, limit)| <= 4009 < LIST_SIZE
  {
    TextFits(cpus, limit);
  }

  // ----- parsing what was formatted

  lemma {:induction false} ReadDecimal(n: nat, t: string)
    requires n < CPU_SETSIZE
    ensures Read(Decimal(n) + t, 0) == Read(t, n)
    decreases n
  {
    if n < 10 {
      assert (Decimal(n) + t)[1..] == t;
    } else {
      var c := [DigitChar(n % 10)];
      assert Decimal(n) + t == Decimal(n / 10) + (c + t);
      ReadDecimal(n / 10, c + t);
      assert (c + t)[1..] == t;
    }
  }

  lemma ReadNumberDecimal(n: nat, t: string)
    requires n < CPU_SETSIZE && (t == "" || !IsDigit(t[0]))
    ensures ReadNumber(Decimal(n) + t) == Some(Reading(n, t))
  {
    ReadDecimal(n, t);
    var s := Decimal(n) + t;
    assert Read(s, 0) == Read(s[1..], DigitValue(s[0]));
  }

  lemma {:induction false} TextFront(ns: seq<nat>)
    requires |ns| >= 2
    ensures Text(ns) == Decimal(ns[0]) + ("," + Text(ns[1..]))
    decreases |ns|
  {
    var init := ns[..|ns| - 1];
    if |ns| == 2 {
      assert Text(init) == Decimal(ns[0]) && ns[1..] == [ns[1]];
    } else {
      TextFront(init);
      assert init[1..] == ns[1..][..|ns| - 2];
      assert Text(ns[1..]) == Text(init[1..]) + "," + Decimal(ns[|ns| - 1]);
      assert Text(ns) == Decimal(ns[0]) + ("," + Text(init[1..])) + "," + Decimal(ns[|ns| - 1]);
    }
  }

  function ToSet(ns: seq<nat>): set<nat> {
    set n | n in ns
  }

  lemma {:induction false} ParseText(ns: seq<nat>, acc: set<nat>)
    requires ns != [] && Ascending(ns)
    requires forall i | 0 <= i < |ns| :: ns[i] < CPU_SETSIZE && ns[i] !in acc
    ensures ParseFrom(Text(ns), acc) == Some(acc + ToSet(ns))
    decreases |ns|
  {
    if |ns| == 1 {
      ParseLast(ns[0], acc);
      assert ToSet(ns) == {ns[0]};
    } else {
      TextFront(ns);
      TextNonempty(ns[1..]);
      ParseFirst(ns[0], Text(ns[1..]), acc);
      ParseText(ns[1..], acc + {ns[0]});
      SetOfRest(ns, acc);
    }
  }

  lemma SetOfRest(ns: seq<nat>, acc: set<nat>)
    requires ns != []
    ensures acc + {ns[0]} + ToSet(ns[1..]) == acc + ToSet(ns)
  {
    assert ns == [ns[0]] + ns[1..];
  }

  lemma FieldOfDecimal(n: nat, rest: string)
    requires n < CPU_SETSIZE && (rest == "" || rest[0] == ',')
    ensures ReadField(Decimal(n) + rest) == Some(Field(n, n, rest))
  {
    ReadNumberDecimal(n, rest);
  }

  lemma TurnOfDecimal(n: nat, rest: string, acc: set<nat>)
    requires n < CPU_SETSIZE && n !in acc && (rest == "" || (rest[0] == ',' && |rest| > 1))
    ensures TurnOf(Decimal(n) + rest, acc) == if rest == "" then Accept(acc + {n}) else More(acc + {n}, rest[1..])
  {
    FieldOfDecimal(n, rest);
    assert Range(n, n) == {n};
  }

  lemma ParseLast(n: nat, acc: set<nat>)
    requires n < CPU_SETSIZE && n !in acc
    ensures ParseFrom(Decimal(n), acc) == Some(acc + {n})
  {
    assert Decimal(n) + "" == Decimal(n);
    TurnOfDecimal(n, "", acc);
  }

  lemma ParseFirst(n: nat, more: string, acc: set<nat>)
    requires n < CPU_SETSIZE && n !in acc && more != ""
    ensures ParseFrom(Decimal(n) + ("," + more), acc) == ParseFrom(more, acc + {n})
  {
    TurnOfDecimal(n, "," + more, acc);
    assert ("," + more)[1..] == more;
  }

  lemma TextNonempty(ns: seq<nat>)
    requires ns != []
    ensures Text(ns) != ""
  {
  }

  /** For every nonempty set of CPUs below the limit, parsing its formatted text gives it
      back. */
  lemma ParseOfFormat(cpus: set<nat>, limit: nat)
    requires limit <= CPU_SETSIZE && cpus != {} && forall n | n in cpus :: n < limit
    ensures Parse(Format(cpus, limit)) == Some(cpus)
  {
    var ns := Members(cpus, limit);
    MembersSorted(cpus, limit);
    var c :| c in cpus;
    assert c in ns;
    assert ToSet(ns) == cpus && {} + ToSet(ns) == ToSet(ns);
    ParseText(ns, {});
  }

  // ----- the analyzer's canonical form

  /** str.split(","). */
  function Split(s: string): (fs: seq<string>)
    ensures |fs| > 0
  {
    if s == "" then [""]
    else
      var rest := Split(s[1..]);
      if s[0] == ',' then [""] + rest else [[s[0]] + rest[0]] + rest[1..]
  }

  /** The length of the longest digit prefix. */
  function Lead(s: string): (n: nat)
    ensures n <= |s| && AllDigits(s[..n]) && (n < |s| ==> !IsDigit(s[n]))
  {
    if s == "" || !IsDigit(s[0]) then 0 else Lead(s[1..]) + 1
  }

  datatype Bounds = Bounds(first: nat, last: nat)

  /** A field is digits, or digits, a dash and digits. */
  function FieldBounds(f: string): (r: Option<Bounds>) {
    var n := Lead(f);
    if n == 0 then None
    else if n == |f| then Some(Bounds(IntOf(f), IntOf(f)))
    else if f[n] == '-' && n + 1 < |f| && AllDigits(f[n + 1..]) then Some(Bounds(IntOf(f[..n]), IntOf(f[n + 1..])))
    else None
  }

  function Collect(fs: seq<string>): (r: Option<set<nat>>) {
    if fs == [] then Some({})
    else
      var b := FieldBounds(fs[0]);
      var rest := Collect(fs[1..]);
      if b.None? || b.value.first > b.value.last || b.value.last >= CPU_SETSIZE || rest.None? then None
      else Some(Range(b.value.first, b.value.last) + rest.value)
  }

  /** canonical_cpu_list. */
  function Canonical(text: string, limit: nat): (r: Option<string>) {
    if text == "" then None
    else if text == "inherit" then Some(text)
    else if Collect(Split(text)).None? then None
    else Some(Format(Collect(Split(text)).value, limit))
  }

  // ----- the two parsers agree

  /** What the digit loop consumes are digits, and it computes their value. */
  lemma {:induction false} ReadSplits(s: string, acc: nat) returns (ds: string)
    requires acc < CPU_SETSIZE && Read(s, acc).Some?
    ensures var r := Read(s, acc).value;
            && s == ds + r.rest && AllDigits(ds) && (r.rest != "" ==> !IsDigit(r.rest[0]))
            && r.value == IntFrom(acc, ds) && r.value < CPU_SETSIZE
    decreases |s|
  {
    if s == "" || !IsDigit(s[0]) {
      ds := "";
    } else {
      var next := acc * 10 + DigitValue(s[0]);
      var more := ReadSplits(s[1..], next);
      ds := [s[0]] + more;
      assert ds[1..] == more;
      Glue(s, more, Read(s[1..], next).value.rest);
    }
  }

  lemma NumberSplits(s: string) returns (ds: string)
    requires ReadNumber(s).Some?
    ensures var r := ReadNumber(s).value;
            && ds != "" && s == ds + r.rest && AllDigits(ds) && (r.rest != "" ==> !IsDigit(r.rest[0]))
            && r.value == IntOf(ds) && r.value < CPU_SETSIZE
  {
    var more := ReadSplits(s[1..], DigitValue(s[0]));
    ds := [s[0]] + more;
    assert ds[1..] == more;
    Glue(s, more, ReadNumber(s).value.rest);
  }

  lemma {:induction false} LeadOf(ds: string, rest: string)
    requires AllDigits(ds) && (rest != "" ==> !IsDigit(rest[0]))
    ensures Lead(ds + rest) == |ds|
    decreases |ds|
  {
    if ds == "" {
      assert ds + rest == rest;
    } else {
      assert (ds + rest)[1..] == ds[1..] + rest;
      LeadOf(ds[1..], rest);
    }
  }

  lemma BoundsOfNumber(ds: string)
    requires ds != "" && AllDigits(ds)
    ensures FieldBounds(ds) == Some(Bounds(IntOf(ds), IntOf(ds)))
  {
    LeadOf(ds, "");
    assert ds + "" == ds;
  }

  lemma BoundsOfRange(ds: string, es: string)
    requires ds != "" && es != "" && AllDigits(ds) && AllDigits(es)
    ensures FieldBounds(ds + ("-" + es)) == Some(Bounds(IntOf(ds), IntOf(es)))
  {
    var f := ds + ("-" + es);
    LeadOf(ds, "-" + es);
    assert f[..|ds|] == ds && f[|ds| + 1..] == es;
  }

  /** A field as the parser reads it is a field as the analyzer reads it. */
  lemma FieldAgrees(s: string) returns (field: string)
    requires ReadField(s).Some?
    ensures var f := ReadField(s).value;
            && s == field + f.rest && ',' !in field && FieldBounds(field) == Some(Bounds(f.first, f.last)) && f.last < CPU_SETSIZE
  {
    var ds := NumberSplits(s);
    var a := ReadNumber(s).value;
    if a.rest != "" && a.rest[0] == '-' {
      var t := a.rest[1..];
      var es := NumberSplits(t);
      field := ds + ("-" + es);
      BoundsOfRange(ds, es);
      RangeText(s, ds, a.rest, es, ReadNumber(t).value.rest);
    } else {
      field := ds;
      BoundsOfNumber(ds);
    }
  }

  lemma RangeText(s: string, ds: string, rest: string, es: string, after: string)
    requires s == ds + rest && rest != "" && rest[0] == '-' && rest[1..] == es + after && AllDigits(ds) && AllDigits(es)
    ensures s == ds + ("-" + es) + after && ',' !in ds + ("-" + es)
  {
    assert rest == "-" + rest[1..];
  }

  lemma {:induction false} SplitOf(field: string, rest: string)
    requires ',' !in field
    ensures Split(field) == [field]
    ensures Split(field + ("," + rest)) == [field] + Split(rest)
    decreases |field|
  {
    var whole := field + ("," + rest);
    if field == "" {
      assert whole == "," + rest && whole[1..] == rest;
    } else {
      SplitOf(field[1..], rest);
      assert whole[1..] == field[1..] + ("," + rest);
      assert field == [field[0]] + field[1..];
    }
  }

  lemma {:induction false} CollectAgrees(s: string, acc: set<nat>)
    requires ParseFrom(s, acc).Some?
    ensures Collect(Split(s)).Some? && acc + Collect(Split(s)).value == ParseFrom(s, acc).value
    decreases |s|
  {
    var f := ReadField(s).value;
    var field := FieldAgrees(s);
    var range := Range(f.first, f.last);
    assert TurnOf(s, acc) == FieldTurn(f, acc);
    if f.rest == "" {
      SplitOf(field, "");
      assert field + "" == field;
      CollectOne(field, []);
      assert range + {} == range;
    } else {
      var more := f.rest[1..];
      assert f.rest == "," + more;
      SplitOf(field, more);
      CollectAgrees(more, acc + range);
      CollectOne(field, Split(more));
      assert acc + (range + Collect(Split(more)).value) == acc + range + Collect(Split(more)).value;
    }
  }

  lemma CollectOne(field: string, fs: seq<string>)
    requires FieldBounds(field).Some? && FieldBounds(field).value.first <= FieldBounds(field).value.last < CPU_SETSIZE
    ensures Collect([field] + fs) == if Collect(fs).None? then None
            else Some(Range(FieldBounds(field).value.first, FieldBounds(field).value.last) + Collect(fs).value)
  {
    assert ([field] + fs)[1..] == fs;
  }

  /** Every text the run configuration accepts is brought by the analyzer into exactly the
      form the run configuration's formatter gives it. */
  lemma CanonicalIsFormat(text: string, limit: nat)
    requires Parse(text).Some?
    ensures Canonical(text, limit) == Some(Format(Parse(text).value, limit))
  {
    CollectAgrees(text, {});
    assert {} + Collect(Split(text)).value == Collect(Split(text)).value;
    assert text != "" && IsDigit(text[0]);
    assert text != "inherit" by {
      assert "inherit"[0] == 'i' && !IsDigit('i');
    }
  }

  // ----- and differ in one thing

  function CpusOf(f: string): set<nat> {
    var b := FieldBounds(f);
    if b.None? then {} else Range(b.value.first, b.value.last)
  }

  /** No CPU is named by two fields, or by a field and `acc`. */
  ghost predicate NoneTwice(fs: seq<string>, acc: set<nat>) {
    && (forall i | 0 <= i < |fs| :: CpusOf(fs[i]) !! acc)
    && (forall i, j | 0 <= i < j < |fs| :: CpusOf(fs[i]) !! CpusOf(fs[j]))
  }

  lemma NoneTwiceFront(f: string, fs: seq<string>, acc: set<nat>)
    ensures NoneTwice([f] + fs, acc) <==> CpusOf(f) !! acc && NoneTwice(fs, acc + CpusOf(f))
  {
    var all := [f] + fs;
    assert all[0] == f && all[1..] == fs;
    if NoneTwice(all, acc) {
      assert CpusOf(all[0]) !! acc;
      forall i | 0 <= i < |fs|
        ensures CpusOf(fs[i]) !! acc + CpusOf(f)
      {
        assert fs[i] == all[i + 1] && CpusOf(all[0]) !! CpusOf(all[i + 1]);
      }
      forall i, j | 0 <= i < j < |fs|
        ensures CpusOf(fs[i]) !! CpusOf(fs[j])
      {
        assert fs[i] == all[i + 1] && fs[j] == all[j + 1];
      }
    }
  }

  lemma {:induction false} IntGrows(acc: nat, s: string)
    requires AllDigits(s)
    ensures acc <= IntFrom(acc, s)
    decreases |s|
  {
    if s != "" {
      IntGrows(acc * 10 + DigitValue(s[0]), s[1..]);
    }
  }

  lemma {:induction false} ReadDigits(acc: nat, ds: string, t: string)
    requires AllDigits(ds) && IntFrom(acc, ds) < CPU_SETSIZE && (t == "" || !IsDigit(t[0]))
    ensures Read(ds + t, acc) == Some(Reading(IntFrom(acc, ds), t))
    decreases |ds|
  {
    if ds == "" {
      assert ds + t == t;
    } else {
      var more := acc * 10 + DigitValue(ds[0]);
      IntGrows(more, ds[1..]);
      ReadDigits(more, ds[1..], t);
      assert (ds + t)[1..] == ds[1..] + t;
    }
  }

  lemma ReadNumberDigits(ds: string, t: string)
    requires ds != "" && AllDigits(ds) && IntOf(ds) < CPU_SETSIZE && (t == "" || !IsDigit(t[0]))
    ensures ReadNumber(ds + t) == Some(Reading(IntOf(ds), t))
  {
    ReadDigits(0, ds, t);
    var s := ds + t;
    assert Read(s, 0) == Read(s[1..], DigitValue(s[0]));
  }

  /** A field as the analyzer reads it is a field as the parser reads it. */
  lemma FieldReads(f: string, t: string)
    requires FieldBounds(f).Some? && FieldBounds(f).value.first <= FieldBounds(f).value.last < CPU_SETSIZE
    requires t == "" || t[0] == ','
    ensures ReadField(f + t) == Some(Field(FieldBounds(f).value.first, FieldBounds(f).value.last, t))
  {
    var n := Lead(f);
    if n == |f| {
      assert f[..n] == f;
      ReadNumberDigits(f, t);
    } else {
      var ds, es := f[..n], f[n + 1..];
      assert f == ds + ("-" + es) && f + t == ds + ("-" + es + t);
      ReadNumberDigits(ds, "-" + es + t);
      assert ("-" + es + t)[1..] == es + t;
      ReadNumberDigits(es, t);
    }
  }

  lemma Glue(s: string, f: string, rest: string)
    requires s != "" && s[1..] == f + rest
    ensures s == ([s[0]] + f) + rest
  {
    assert s == [s[0]] + s[1..];
  }

  /** The fields of a text, in terms of the fields of the rest of it. */
  lemma SplitCons(s: string)
    requires s != ""
    ensures s[0] == ',' ==> Split(s)[0] == "" && Split(s)[1..] == Split(s[1..])
    ensures s[0] != ',' ==> Split(s)[0] == [s[0]] + Split(s[1..])[0] && Split(s)[1..] == Split(s[1..])[1..]
  {
  }

  /** `s` is its first field, followed by a comma and the other fields if there are any. */
  predicate Fronted(s: string, first: string, others: seq<string>, more: string) {
    if others == [] then s == first else s == first + ("," + more) && Split(more) == others && |more| < |s|
  }

  lemma FrontedCons(s: string, first: string, others: seq<string>, more: string)
    requires s != "" && Fronted(s[1..], first, others, more)
    ensures Fronted(s, [s[0]] + first, others, more)
  {
    assert first + "" == first && ([s[0]] + first) + "" == [s[0]] + first;
    Glue(s, first, if others == [] then "" else "," + more);
  }

  lemma {:induction false} SplitFront(s: string) returns (more: string)
    ensures Fronted(s, Split(s)[0], Split(s)[1..], more)
    decreases |s|
  {
    if s == "" {
      more := "";
    } else {
      SplitCons(s);
      if s[0] == ',' {
        more := s[1..];
        assert s == "" + ("," + more);
      } else {
        more := SplitFront(s[1..]);
        FrontedCons(s, Split(s[1..])[0], Split(s[1..])[1..], more);
      }
    }
  }

  lemma NothingInNothing()
    ensures Collect(Split("")).None?
  {
    assert Split("") == [""] && Lead("") == 0;
  }

  /** One turn of the parser over a field the analyzer collects. */
  lemma TurnOfField(f: string, t: string, acc: set<nat>)
    requires FieldBounds(f).Some? && FieldBounds(f).value.first <= FieldBounds(f).value.last < CPU_SETSIZE
    requires CpusOf(f) !! acc && (t == "" || (t[0] == ',' && |t| > 1))
    ensures TurnOf(f + t, acc) == if t == "" then Accept(acc + CpusOf(f)) else More(acc + CpusOf(f), t[1..])
  {
    FieldReads(f, t);
  }

  /** What the analyzer collects, the parser accepts, unless it names a CPU twice. */
  lemma {:induction false} ParsesIfNoneTwice(s: string, acc: set<nat>)
    requires Collect(Split(s)).Some? && NoneTwice(Split(s), acc)
    ensures ParseFrom(s, acc).Some?
    decreases |s|
  {
    var more := SplitFront(s);
    var f, fs := Split(s)[0], Split(s)[1..];
    assert Split(s) == [f] + fs;
    NoneTwiceFront(f, fs, acc);
    if fs == [] {
      assert f + "" == f;
      TurnOfField(f, "", acc);
    } else {
      NothingInNothing();
      TurnOfField(f, "," + more, acc);
      assert ("," + more)[1..] == more;
      ParsesIfNoneTwice(more, acc + CpusOf(f));
    }
  }

  lemma {:induction false} ParsedNamesNoneTwice(s: string, acc: set<nat>)
    requires ParseFrom(s, acc).Some?
    ensures NoneTwice(Split(s), acc)
    decreases |s|
  {
    var f := ReadField(s).value;
    var field := FieldAgrees(s);
    assert TurnOf(s, acc) == FieldTurn(f, acc);
    if f.rest == "" {
      SplitOf(field, "");
      assert field + "" == field && [field] + [] == [field];
      NoneTwiceFront(field, [], acc);
    } else {
      var more := f.rest[1..];
      assert f.rest == "," + more;
      SplitOf(field, more);
      ParsedNamesNoneTwice(more, acc + CpusOf(field));
      NoneTwiceFront(field, Split(more), acc);
    }
  }

  /** The exact difference between the two: the run configuration accepts what the analyzer
      accepts, except for the word "inherit" and lists that name a CPU twice. */
  lemma AcceptsExactly(text: string, limit: nat)
    ensures Parse(text).Some? <==> Canonical(text, limit).Some? && text != "inherit" && NoneTwice(Split(text), {})
  {
    if Parse(text).Some? {
      CanonicalIsFormat(text, limit);
      ParsedNamesNoneTwice(text, {});
      assert text != "" && IsDigit(text[0]);
      assert "inherit"[0] == 'i' && !IsDigit('i');
    } else if Canonical(text, limit).Some? && text != "inherit" && NoneTwice(Split(text), {}) {
      ParsesIfNoneTwice(text, {});
    }
  }

  /** A list only the analyzer takes. */
  lemma TwiceIsRefused(limit: nat)
    ensures Canonical("1,1", limit).Some? && Parse("1,1").None?
  {
    var text := "1,1";
    SplitOf("1", "1");
    assert "1" + ("," + "1") == text && Split(text) == ["1", "1"];
    BoundsOfNumber("1");
    CollectOne("1", []);
    CollectOne("1", ["1"]);
    assert ["1"] + [] == ["1"] && ["1"] + ["1"] == ["1", "1"];
    assert IntOf("1") == IntFrom(1, "1"[1..]) == 1;
    assert text[0] != "inherit"[0];
    AcceptsExactly(text, limit);
    assert 1 in CpusOf("1");
    assert !(CpusOf(Split(text)[0]) !! CpusOf(Split(text)[1]));
  }
}
