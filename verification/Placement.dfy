/** Which CPUs a run configuration gives to whom (experiment/run_config.c), and the
    analyzer's check of the emitted condition (analysis/analyze_experiment.py). */
module Placement {
  import opened Wrappers
  import opened CpuList
  import P = Packets
  import X = XdpAccounting

  datatype Mode = Mixed | AllPass | PassXsk | SocketOnly

  /** The placement part of a configuration.  An empty `mask` means that no shared CPUs are
      configured; `None` is an inherited CPU. */
  datatype Config = Config(
    mask: set<nat>, cpumapCpu: nat, irqCpu: nat, enabled: seq<bool>, rxCpu: seq<Option<nat>>, allPassRxCpu: seq<Option<nat>>)

  predicate CpuOk(cpu: Option<nat>, limit: nat) {
    cpu.Some? ==> cpu.value < limit
  }

  /** What read_run_config accepts; CPUs are below `limit` (CPU_SETSIZE in the source). */
  predicate Accepted(c: Config, limit: nat) {
    && 3 < limit <= CPU_SETSIZE
    && |c.enabled| == |c.rxCpu| == |c.allPassRxCpu| == 3 && true in c.enabled
    && (forall i | 0 <= i < 3 :: CpuOk(c.rxCpu[i], limit) && CpuOk(c.allPassRxCpu[i], limit))
    && (forall n | n in c.mask :: n < limit)
    && (c.mask != {} ==>
          && c.cpumapCpu == 3 && 3 in c.mask && |c.mask| >= 2
          && c.irqCpu in c.mask && c.irqCpu != c.cpumapCpu
          && (forall i | 0 <= i < 3 && c.enabled[i] :: c.rxCpu[i] == None && c.allPassRxCpu[i] == None))
  }

  // ----- who gets which CPUs

  function FlowPath(mode: Mode, flow: nat): string {
    if flow == 2 && mode in {Mixed, PassXsk} then "xsk" else if flow == 1 && mode == Mixed then "cpumap" else "pass"
  }

  predicate CpumapActive(c: Config, mode: Mode)
    requires |c.enabled| == 3
  {
    c.mask != {} && mode == Mixed && c.enabled[1]
  }

  function GeneralSet(c: Config, mode: Mode): set<nat>
    requires |c.enabled| == 3
  {
    if CpumapActive(c, mode) then c.mask - {c.cpumapCpu} else c.mask
  }

  function RxSet(c: Config, flow: nat, mode: Mode): set<nat>
    requires |c.enabled| == |c.rxCpu| == |c.allPassRxCpu| == 3 && flow < 3
  {
    if c.mask != {} then (if flow == 1 && CpumapActive(c, mode) then {c.cpumapCpu} else GeneralSet(c, mode))
    else
      var cpu := if mode == AllPass then c.allPassRxCpu[flow] else c.rxCpu[flow];
      if cpu.Some? then {cpu.value} else {}
  }

  /** With shared CPUs the general set always keeps the interrupt CPU, and it and the
      reserved CPU partition the available set exactly when CPUMAP is active. */
  lemma GeneralSetFacts(c: Config, mode: Mode, limit: nat)
    requires Accepted(c, limit) && c.mask != {}
    ensures c.irqCpu in GeneralSet(c, mode) && GeneralSet(c, mode) <= c.mask
    ensures GeneralSet(c, mode) + {c.cpumapCpu} == c.mask
    ensures GeneralSet(c, mode) !! {c.cpumapCpu} <==> CpumapActive(c, mode)
    ensures forall i | 0 <= i < 3 :: RxSet(c, i, mode) != {}
  {
    assert c.cpumapCpu in c.mask;
  }

  /** Without shared CPUs every receiver has its own setting, all-pass mode another one; with
      them the CPUMAP flow gets the reserved CPU exactly while CPUMAP is active. */
  lemma RxSetMeans(c: Config, flow: nat, mode: Mode, limit: nat)
    requires Accepted(c, limit) && flow < 3
    ensures c.mask == {} && mode == AllPass ==>
              RxSet(c, flow, mode) == if c.allPassRxCpu[flow].Some? then {c.allPassRxCpu[flow].value} else {}
    ensures c.mask == {} && mode != AllPass ==>
              RxSet(c, flow, mode) == if c.rxCpu[flow].Some? then {c.rxCpu[flow].value} else {}
    ensures c.mask != {} && mode == Mixed && c.enabled[1] ==> RxSet(c, 1, mode) == {c.cpumapCpu} && RxSet(c, 0, mode) == RxSet(c, 2, mode) == c.mask - {c.cpumapCpu}
    ensures c.mask != {} && !(mode == Mixed && c.enabled[1]) ==> RxSet(c, flow, mode) == c.mask
  {
  }

  function ForwardMode(mode: Mode): X.Mode
    requires mode != SocketOnly
  {
    match mode
    case Mixed => X.Mixed
    case AllPass => X.AllPass
    case PassXsk => X.PassXsk
  }

  function PathName(path: P.Path): string {
    match path
    case Pass => "pass"
    case Cpumap => "cpumap"
    case Xsk => "xsk"
  }

  /** The path written into a condition is the path the classifier takes for the flow's port in
      that mode; without XDP everything passes. */
  lemma FlowPathIsClassified(mode: Mode, flow: nat)
    requires flow < 3
    ensures mode == SocketOnly ==> FlowPath(mode, flow) == "pass"
    ensures mode != SocketOnly ==> FlowPath(mode, flow) == PathName(X.EffectivePath(ForwardMode(mode), P.PathOf(P.PASS_PORT + flow)))
  {
  }

  // ----- the emitted condition

  datatype FlowEntry = FlowEntry(id: nat, path: string, rxCpus: string)

  datatype Condition = Condition(
    mode: Mode, flows: seq<FlowEntry>, available: string, shared: string, active: bool, target: Option<nat>)

  function EntryFor(c: Config, mode: Mode, limit: nat, flow: nat): FlowEntry
    requires |c.enabled| == |c.rxCpu| == |c.allPassRxCpu| == 3 && flow < 3
  {
    var text := Format(RxSet(c, flow, mode), limit);
    FlowEntry(flow + 1, FlowPath(mode, flow), if text == "" then "inherit" else text)
  }

  function Entries(c: Config, mode: Mode, limit: nat, n: nat): (es: seq<FlowEntry>)
    requires |c.enabled| == |c.rxCpu| == |c.allPassRxCpu| == 3 && n <= 3
  {
    if n == 0 then []
    else if c.enabled[n - 1] then Entries(c, mode, limit, n - 1) + [EntryFor(c, mode, limit, n - 1)]
    else Entries(c, mode, limit, n - 1)
  }

  /** The entry of one of the first n flows, an enabled one. */
  predicate IsEntry(c: Config, mode: Mode, limit: nat, n: nat, e: FlowEntry)
    requires |c.enabled| == |c.rxCpu| == |c.allPassRxCpu| == 3 && n <= 3
  {
    1 <= e.id <= n && c.enabled[e.id - 1] && e == EntryFor(c, mode, limit, e.id - 1)
  }

  /** Every entry is that of an enabled flow ... */
  lemma {:induction false} EntriesAreOf(c: Config, mode: Mode, limit: nat, n: nat)
    requires |c.enabled| == |c.rxCpu| == |c.allPassRxCpu| == 3 && n <= 3
    ensures forall e | e in Entries(c, mode, limit, n) :: IsEntry(c, mode, limit, n, e)
    decreases n
  {
    if n > 0 {
      EntriesAreOf(c, mode, limit, n - 1);
      forall e | e in Entries(c, mode, limit, n)
        ensures IsEntry(c, mode, limit, n, e)
      {
        if e in Entries(c, mode, limit, n - 1) {
          assert IsEntry(c, mode, limit, n - 1, e);
        } else {
          assert e == EntryFor(c, mode, limit, n - 1);
        }
      }
    }
  }

  /** ... and every enabled flow has one. */
  lemma {:induction false} EntriesCover(c: Config, mode: Mode, limit: nat, n: nat, flow: nat)
    requires |c.enabled| == |c.rxCpu| == |c.allPassRxCpu| == 3 && flow < n <= 3 && c.enabled[flow]
    ensures EntryFor(c, mode, limit, flow) in Entries(c, mode, limit, n)
    decreases n
  {
    if flow < n - 1 {
      EntriesCover(c, mode, limit, n - 1, flow);
    }
  }

  /** write_condition. */
  function Emit(c: Config, mode: Mode, limit: nat): Condition
    requires |c.enabled| == |c.rxCpu| == |c.allPassRxCpu| == 3
  {
    Condition(mode, Entries(c, mode, limit, 3), Format(c.mask, limit), Format(GeneralSet(c, mode), limit), CpumapActive(c, mode),
              if c.mask != {} then Some(c.cpumapCpu) else None)
  }

  // ----- the analyzer's check

  /** ",".join(...). */
  function Join(fs: seq<string>): string {
    if fs == [] then "" else if |fs| == 1 then fs[0] else Join(fs[..|fs| - 1]) + "," + fs[|fs| - 1]
  }

  function Keep(fs: seq<string>, drop: bool, target: string): seq<string> {
    if fs == [] then []
    else
      var init := Keep(fs[..|fs| - 1], drop, target);
      if drop && fs[|fs| - 1] == target then init else init + [fs[|fs| - 1]]
  }

  /** Reads an optional CPU list that must name its CPUs. */
  function Named(text: string, limit: nat): (r: Option<string>) {
    if text == "" then Some("")
    else if Canonical(text, limit).None? || Canonical(text, limit).value == "inherit" then None
    else Canonical(text, limit)
  }

  /** receiver_placement: false where it raises. */
  predicate PlacementOk(d: Condition, limit: nat) {
    && Named(d.shared, limit).Some?
    && (d.target.Some? ==> d.target.value < CPU_SETSIZE)
    && (forall i | 0 <= i < |d.flows| :: Canonical(d.flows[i].rxCpus, limit).Some?)
    && (d.available != "" ==> ReservationOk(d, limit))
  }

  predicate ReservationOk(d: Condition, limit: nat)
    requires Named(d.shared, limit).Some?
  {
    && Named(d.available, limit).Some? && d.target.Some?
    && var cpus := Split(Named(d.available, limit).value);
       var target := Decimal(d.target.value);
       var shared := Named(d.shared, limit).value;
       && target in cpus
       && (d.active <==> d.mode == Mixed && exists i :: 0 <= i < |d.flows| && d.flows[i].id == 2 && d.flows[i].path == "cpumap")
       && Join(Keep(cpus, d.active, target)) == shared != ""
       && forall i | 0 <= i < |d.flows| ::
            Canonical(d.flows[i].rxCpus, limit) == Some(if d.active && d.flows[i].id == 2 then target else shared)
  }

  // ----- lists of numbers as text

  function Decimals(ns: seq<nat>): (fs: seq<string>)
    ensures |fs| == |ns| && forall i | 0 <= i < |ns| :: fs[i] == Decimal(ns[i])
  {
    seq(|ns|, i requires 0 <= i < |ns| => Decimal(ns[i]))
  }

  lemma DecimalInjective(a: nat, b: nat)
    requires a < CPU_SETSIZE && b < CPU_SETSIZE && Decimal(a) == Decimal(b)
    ensures a == b
  {
    ReadNumberDecimal(a, "");
    ReadNumberDecimal(b, "");
    assert Decimal(a) + "" == Decimal(b) + "";
  }

  lemma DecimalsFront(ns: seq<nat>)
    requires ns != []
    ensures Decimals(ns) == [Decimal(ns[0])] + Decimals(ns[1..])
  {
  }

  lemma {:induction false} SplitText(ns: seq<nat>)
    requires ns != []
    ensures Split(Text(ns)) == Decimals(ns)
    decreases |ns|
  {
    DecimalsFront(ns);
    if |ns| > 1 {
      TextFront(ns);
      SplitOf(Decimal(ns[0]), Text(ns[1..]));
      SplitText(ns[1..]);
    } else {
      SplitOf(Decimal(ns[0]), "");
    }
  }

  lemma {:induction false} JoinDecimals(ns: seq<nat>)
    ensures Join(Decimals(ns)) == Text(ns)
    decreases |ns|
  {
    if ns != [] {
      assert Decimals(ns)[..|ns| - 1] == Decimals(ns[..|ns| - 1]);
      JoinDecimals(ns[..|ns| - 1]);
    }
  }

  function Filter(ns: seq<nat>, drop: bool, target: nat): seq<nat> {
    if ns == [] then []
    else
      var init := Filter(ns[..|ns| - 1], drop, target);
      if drop && ns[|ns| - 1] == target then init else init + [ns[|ns| - 1]]
  }

  lemma {:induction false} FilterMembers(cpus: set<nat>, kept: set<nat>, n: nat, drop: bool, target: nat)
    requires forall m :: m in kept <==> m in cpus && !(drop && m == target)
    ensures Filter(Members(cpus, n), drop, target) == Members(kept, n)
    decreases n
  {
    if n > 0 {
      FilterMembers(cpus, kept, n - 1, drop, target);
      var ns := Members(cpus, n - 1);
      assert (ns + [n - 1])[..|ns|] == ns;
    }
  }

  lemma {:induction false} KeepDecimals(ns: seq<nat>, drop: bool, target: nat)
    requires target < CPU_SETSIZE && forall i | 0 <= i < |ns| :: ns[i] < CPU_SETSIZE
    ensures Keep(Decimals(ns), drop, Decimal(target)) == Decimals(Filter(ns, drop, target))
    decreases |ns|
  {
    if ns != [] {
      var init, last := ns[..|ns| - 1], ns[|ns| - 1];
      KeepDecimals(init, drop, target);
      DecimalsGrow(init, last);
      assert init + [last] == ns;
      KeepGrows(Decimals(init), Decimal(last), drop, Decimal(target));
      DecimalsGrow(Filter(init, drop, target), last);
      if Decimal(last) == Decimal(target) {
        DecimalInjective(last, target);
      }
    }
  }

  lemma DecimalsGrow(ns: seq<nat>, n: nat)
    ensures Decimals(ns + [n]) == Decimals(ns) + [Decimal(n)]
  {
  }

  lemma KeepGrows(fs: seq<string>, f: string, drop: bool, target: string)
    ensures Keep(fs + [f], drop, target) == if drop && f == target then Keep(fs, drop, target) else Keep(fs, drop, target) + [f]
  {
    assert (fs + [f])[..|fs|] == fs;
  }

  /** The canonical text of a nonempty set is its own canonical form. */
  lemma FormatIsCanonical(cpus: set<nat>, limit: nat)
    requires limit <= CPU_SETSIZE && cpus != {} && forall n | n in cpus :: n < limit
    ensures Canonical(Format(cpus, limit), limit) == Some(Format(cpus, limit))
    ensures Named(Format(cpus, limit), limit) == Some(Format(cpus, limit))
    ensures Format(cpus, limit) != "" && Members(cpus, limit) != []
  {
    ParseOfFormat(cpus, limit);
    CanonicalIsFormat(Format(cpus, limit), limit);
    var c :| c in cpus;
    MembersSorted(cpus, limit);
    assert c in Members(cpus, limit);
    TextNonempty(Members(cpus, limit));
    ParsedIsNotInherit(Format(cpus, limit));
  }

  lemma ParsedIsNotInherit(text: string)
    requires Parse(text).Some?
    ensures text != "inherit"
  {
    assert text != "" && IsDigit(text[0]);
    assert "inherit"[0] == 'i' && !IsDigit('i');
  }

  lemma {:induction false} EmptyText(limit: nat)
    ensures Format({}, limit) == ""
    decreases limit
  {
    if limit > 0 {
      EmptyText(limit - 1);
    }
  }

  // ----- the emitted condition passes

  lemma RxSetSmall(c: Config, mode: Mode, limit: nat, flow: nat)
    requires Accepted(c, limit) && flow < 3
    ensures forall n | n in RxSet(c, flow, mode) :: n < limit
  {
  }

  lemma EntryIsCanonical(c: Config, mode: Mode, limit: nat, flow: nat)
    requires Accepted(c, limit) && flow < 3
    ensures Canonical(EntryFor(c, mode, limit, flow).rxCpus, limit) == Some(EntryFor(c, mode, limit, flow).rxCpus)
    ensures RxSet(c, flow, mode) != {} ==> EntryFor(c, mode, limit, flow).rxCpus == Format(RxSet(c, flow, mode), limit)
  {
    RxSetSmall(c, mode, limit, flow);
    if RxSet(c, flow, mode) == {} {
      EmptyText(limit);
    } else {
      FormatIsCanonical(RxSet(c, flow, mode), limit);
    }
  }

  /** A single CPU is written as its number. */
  lemma {:induction false} SingleText(n: nat, limit: nat)
    requires n < limit
    ensures Members({n}, limit) == [n] && Format({n}, limit) == Decimal(n)
    decreases limit
  {
    if limit == n + 1 {
      NoneBelow(n, n);
    } else {
      SingleText(n, limit - 1);
    }
  }

  lemma {:induction false} NoneBelow(n: nat, limit: nat)
    requires limit <= n
    ensures Members({n}, limit) == []
    decreases limit
  {
    if limit > 0 {
      NoneBelow(n, limit - 1);
    }
  }

  lemma ReservationHolds(c: Config, mode: Mode, limit: nat)
    requires Accepted(c, limit) && c.mask != {}
    ensures Named(Emit(c, mode, limit).shared, limit).Some? && ReservationOk(Emit(c, mode, limit), limit)
  {
    var d := Emit(c, mode, limit);
    var active := CpumapActive(c, mode);
    GeneralSetFacts(c, mode, limit);
    FormatIsCanonical(c.mask, limit);
    FormatIsCanonical(GeneralSet(c, mode), limit);
    SplitText(Members(c.mask, limit));
    KeepDecimals(Members(c.mask, limit), active, c.cpumapCpu);
    FilterMembers(c.mask, GeneralSet(c, mode), limit, active, c.cpumapCpu);
    JoinDecimals(Members(GeneralSet(c, mode), limit));
    TargetListed(c, limit);
    ActiveMatches(c, mode, limit);
    FlowsMatch(c, mode, limit);
  }

  lemma TargetListed(c: Config, limit: nat)
    requires Accepted(c, limit) && c.mask != {}
    ensures Decimal(c.cpumapCpu) in Decimals(Members(c.mask, limit))
  {
    MembersSorted(c.mask, limit);
    var ns := Members(c.mask, limit);
    var k :| 0 <= k < |ns| && ns[k] == c.cpumapCpu;
    assert Decimals(ns)[k] == Decimal(c.cpumapCpu);
  }

  lemma ActiveMatches(c: Config, mode: Mode, limit: nat)
    requires Accepted(c, limit) && c.mask != {}
    ensures var flows := Emit(c, mode, limit).flows;
            CpumapActive(c, mode) <==> mode == Mixed && exists i :: 0 <= i < |flows| && flows[i].id == 2 && flows[i].path == "cpumap"
  {
    var flows := Emit(c, mode, limit).flows;
    EntriesAreOf(c, mode, limit, 3);
    if CpumapActive(c, mode) {
      EntriesCover(c, mode, limit, 3, 1);
      var i :| 0 <= i < |flows| && flows[i] == EntryFor(c, mode, limit, 1);
      assert flows[i].id == 2 && flows[i].path == "cpumap";
    }
    forall i | mode == Mixed && 0 <= i < |flows| && flows[i].id == 2
      ensures CpumapActive(c, mode)
    {
      assert IsEntry(c, mode, limit, 3, flows[i]);
    }
  }

  lemma FlowsMatch(c: Config, mode: Mode, limit: nat)
    requires Accepted(c, limit) && c.mask != {}
    ensures var d := Emit(c, mode, limit);
            forall i | 0 <= i < |d.flows| ::
              Canonical(d.flows[i].rxCpus, limit) == Some(if d.active && d.flows[i].id == 2 then Decimal(c.cpumapCpu) else d.shared)
  {
    var d := Emit(c, mode, limit);
    EntriesAreOf(c, mode, limit, 3);
    GeneralSetFacts(c, mode, limit);
    SingleText(c.cpumapCpu, limit);
    forall i | 0 <= i < |d.flows|
      ensures Canonical(d.flows[i].rxCpus, limit) == Some(if d.active && d.flows[i].id == 2 then Decimal(c.cpumapCpu) else d.shared)
    {
      assert IsEntry(c, mode, limit, 3, d.flows[i]);
      EntryIsCanonical(c, mode, limit, d.flows[i].id - 1);
    }
  }

  /** The condition emitted for any accepted configuration, in any mode, passes the
      analyzer's placement check. */
  lemma EmittedConditionPasses(c: Config, mode: Mode, limit: nat)
    requires Accepted(c, limit)
    ensures PlacementOk(Emit(c, mode, limit), limit)
  {
    var d := Emit(c, mode, limit);
    EntriesAreOf(c, mode, limit, 3);
    forall i | 0 <= i < |d.flows|
      ensures Canonical(d.flows[i].rxCpus, limit).Some?
    {
      assert IsEntry(c, mode, limit, 3, d.flows[i]);
      EntryIsCanonical(c, mode, limit, d.flows[i].id - 1);
    }
    if c.mask == {} {
      EmptyText(limit);
    } else {
      ReservationHolds(c, mode, limit);
    }
  }

  // ----- what passing the check means

  lemma {:induction false} CollectBounds(fs: seq<string>)
    requires Collect(fs).Some?
    ensures (forall n | n in Collect(fs).value :: n < CPU_SETSIZE) && (fs != [] ==> Collect(fs).value != {})
    decreases |fs|
  {
    if fs != [] {
      CollectBounds(fs[1..]);
      var b := FieldBounds(fs[0]).value;
      assert b.first in Range(b.first, b.last);
    }
  }

  /** The CPUs a text names. */
  ghost predicate Names(text: string, cpus: set<nat>) {
    Collect(Split(text)) == Some(cpus)
  }

  /** Two sets with one canonical text are one set. */
  lemma FormatInjective(a: set<nat>, b: set<nat>, limit: nat)
    requires limit <= CPU_SETSIZE && (forall n | n in a :: n < limit) && (forall n | n in b :: n < limit)
    requires Format(a, limit) == Format(b, limit) != ""
    ensures a == b
  {
    EmptyText(limit);
    ParseOfFormat(a, limit);
    ParseOfFormat(b, limit);
  }

  /** A text whose canonical form is that of a set names that set. */
  lemma CanonicalNames(text: string, cpus: set<nat>, limit: nat)
    requires limit == CPU_SETSIZE && cpus != {} && (forall n | n in cpus :: n < limit)
    requires Canonical(text, limit) == Some(Format(cpus, limit))
    ensures Names(text, cpus)
  {
    FormatIsCanonical(cpus, limit);
    ParseOfFormat(cpus, limit);
    ParsedIsNotInherit(Format(cpus, limit));
    CollectBounds(Split(text));
    FormatInjective(Collect(Split(text)).value, cpus, limit);
  }

  lemma NamedNames(text: string, limit: nat) returns (cpus: set<nat>)
    requires limit == CPU_SETSIZE && Named(text, limit).Some? && Named(text, limit).value != ""
    ensures Names(text, cpus) && cpus != {} && (forall n | n in cpus :: n < limit) && Named(text, limit).value == Format(cpus, limit)
  {
    cpus := Collect(Split(text)).value;
    CollectBounds(Split(text));
  }

  lemma ListedIsMember(cpus: set<nat>, n: nat, limit: nat)
    requires limit <= CPU_SETSIZE && n < CPU_SETSIZE && Decimal(n) in Decimals(Members(cpus, limit))
    ensures n in cpus
  {
    var ns := Members(cpus, limit);
    var k :| 0 <= k < |ns| && Decimals(ns)[k] == Decimal(n);
    DecimalInjective(ns[k], n);
  }

  /** What is left after dropping the target, as text. */
  lemma KeptText(cpus: set<nat>, kept: set<nat>, drop: bool, target: nat, limit: nat)
    requires limit <= CPU_SETSIZE && cpus != {} && (forall n | n in cpus :: n < limit) && target < CPU_SETSIZE
    requires kept == if drop then cpus - {target} else cpus
    ensures Split(Format(cpus, limit)) == Decimals(Members(cpus, limit))
    ensures Join(Keep(Split(Format(cpus, limit)), drop, Decimal(target))) == Format(kept, limit)
  {
    FormatIsCanonical(cpus, limit);
    SplitText(Members(cpus, limit));
    KeepDecimals(Members(cpus, limit), drop, target);
    FilterMembers(cpus, kept, limit, drop, target);
    JoinDecimals(Members(kept, limit));
  }

  /** A condition with available CPUs that passes the analyzer's check really reserves: the shared
      CPUs are all available ones but the target while CPUMAP is active, all of them otherwise,
      there is at least one, and every flow runs on exactly its share. */
  lemma CheckIsSound(d: Condition, limit: nat) returns (available: set<nat>, shared: set<nat>)
    requires limit == CPU_SETSIZE && PlacementOk(d, limit) && d.available != ""
    ensures Names(d.available, available) && Names(d.shared, shared)
    ensures d.target.Some? && d.target.value in available && shared != {}
    ensures shared == if d.active then available - {d.target.value} else available
    ensures d.active <==> d.mode == Mixed && exists i :: 0 <= i < |d.flows| && d.flows[i].id == 2 && d.flows[i].path == "cpumap"
    ensures forall i | 0 <= i < |d.flows| ::
              Names(d.flows[i].rxCpus, if d.active && d.flows[i].id == 2 then {d.target.value} else shared)
  {
    var target := d.target.value;
    AvailableNamed(d, limit);
    available := NamedNames(d.available, limit);
    shared := NamedNames(d.shared, limit);
    var kept := if d.active then available - {target} else available;
    KeptText(available, kept, d.active, target, limit);
    ListedIsMember(available, target, limit);
    FormatInjective(kept, shared, limit);
    SingleText(target, limit);
    forall i | 0 <= i < |d.flows|
      ensures Names(d.flows[i].rxCpus, if d.active && d.flows[i].id == 2 then {target} else shared)
    {
      CanonicalNames(d.flows[i].rxCpus, if d.active && d.flows[i].id == 2 then {target} else shared, limit);
    }
  }

  lemma AvailableNamed(d: Condition, limit: nat)
    requires PlacementOk(d, limit) && d.available != ""
    ensures Named(d.available, limit).Some? && d.target.Some? && d.target.value < CPU_SETSIZE
    ensures Named(d.available, limit).value != "" && Named(d.shared, limit).Some? && Named(d.shared, limit).value != ""
  {
  }
}
