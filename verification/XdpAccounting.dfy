/** The two XDP programs and their books: the counters, the two record maps and the
    packets on their way to the measuring CPU (BPF/xdp_kern.c, BPF/metadata.h). */
module XdpAccounting {
  import opened Wrappers
  import opened Packets
  import opened Sorting

  const META_MAGIC := 0x4143454d
  const META_VERSION := 1
  const META_SIZE := 56

  /** The statistics map, summed over the CPUs. */
  datatype Counters = Counters(
    pass: int, cpumap: int, xsk: int, total: int, experimentPass: int,
    ipv4Invalid: int, ipv4Fragment: int, headerInvalid: int, metaAdjustError: int, metaBoundsError: int,
    hwtsValid: int, hwtsError: int, ingressRecorded: int, ingressDuplicate: int, ingressUpdateError: int,
    cpumapMetaInvalid: int, cpumapRecorded: int, cpumapDuplicate: int, cpumapUpdateError: int,
    cpumapFallback: int, xskFallback: int)

  const ZERO := Counters(0, 0, 0, 0, 0, 0, 0, 0, 0, 0, 0, 0, 0, 0, 0, 0, 0, 0, 0, 0, 0)

  datatype Mode = Mixed | AllPass | PassXsk

  function EffectivePath(mode: Mode, classified: Path): (path: Path)
    ensures path == Cpumap <==> classified == Cpumap && mode.Mixed?
    ensures path == Xsk <==> classified == Xsk && mode != AllPass
  {
    if mode.AllPass? || (mode.PassXsk? && classified == Cpumap) then Pass else classified
  }

  /** The metadata in front of a packet; the flag word is spread over named bits. */
  datatype Meta = Meta(
    magic: nat, version: nat, size: nat,
    hwtsValid: bool, idValid: bool, cpumapSeen: bool, timestampError: bool, pathRequested: bool,
    key: Key, hwTime: nat, initialTime: nat, cpumapTime: nat, queue: nat, path: Path, errorCode: int)

  datatype IngressRecord = IngressRecord(
    key: Key, queue: nat, hwTime: nat, initialTime: nat, hwtsValid: bool, path: Path, errorCode: int)

  datatype CpumapRecord = CpumapRecord(key: Key, cpu: nat, cpumapTime: nat, path: Path)

  datatype Timestamp = Stamp(ns: nat) | StampError(code: int)

  /** A frame and what the helpers answer while it is handled.  `ingressFault` is an update
      error other than an existing key or a full map. */
  datatype Arrival = Arrival(
    frame: seq<Octet>, now: nat, queue: nat, adjustOk: bool, boundsOk: bool,
    timestamp: Timestamp, ingressFault: bool, cpumapReady: bool, xskReady: bool)

  datatype Insertion = Recorded | Duplicate | UpdateError
  datatype Fate = ToCpumap | CpumapFallback | ToXsk | XskFallback | ExperimentPass
  datatype Outcome = NotMeasured(parsed: Parsed) | NoRoom | NoBounds | Measured(stamped: bool, ingress: Insertion, fate: Fate)

  // ----- what each outcome adds to the books

  /** Handling a packet with outcome `o` takes the counters from `c` to `d`. */
  predicate Advanced(c: Counters, d: Counters, o: Outcome) {
    && AdvancedVerdicts(c, d, o) && AdvancedReasons(c, d, o) && AdvancedMeasurements(c, d, o)
    && d.cpumapMetaInvalid == c.cpumapMetaInvalid && d.cpumapRecorded == c.cpumapRecorded
    && d.cpumapDuplicate == c.cpumapDuplicate && d.cpumapUpdateError == c.cpumapUpdateError
  }

  predicate AdvancedVerdicts(c: Counters, d: Counters, o: Outcome) {
    && d.total == c.total + 1
    && d.cpumap == c.cpumap + One(o.Measured? && o.fate == ToCpumap)
    && d.xsk == c.xsk + One(o.Measured? && o.fate == ToXsk)
    && d.pass == c.pass + One(!o.Measured? || o.fate in {CpumapFallback, XskFallback, ExperimentPass})
  }

  predicate AdvancedReasons(c: Counters, d: Counters, o: Outcome) {
    && d.ipv4Invalid == c.ipv4Invalid + One(o == NotMeasured(InvalidIpv4))
    && d.ipv4Fragment == c.ipv4Fragment + One(o == NotMeasured(Fragment))
    && d.headerInvalid == c.headerInvalid + One(o == NotMeasured(BadHeader))
    && d.metaAdjustError == c.metaAdjustError + One(o == NoRoom)
    && d.metaBoundsError == c.metaBoundsError + One(o == NoBounds)
  }

  predicate AdvancedMeasurements(c: Counters, d: Counters, o: Outcome) {
    && d.hwtsValid == c.hwtsValid + One(o.Measured? && o.stamped)
    && d.hwtsError == c.hwtsError + One(o.Measured? && !o.stamped)
    && d.ingressRecorded == c.ingressRecorded + One(o.Measured? && o.ingress == Recorded)
    && d.ingressDuplicate == c.ingressDuplicate + One(o.Measured? && o.ingress == Duplicate)
    && d.ingressUpdateError == c.ingressUpdateError + One(o.Measured? && o.ingress == UpdateError)
    && d.cpumapFallback == c.cpumapFallback + One(o.Measured? && o.fate == CpumapFallback)
    && d.xskFallback == c.xskFallback + One(o.Measured? && o.fate == XskFallback)
    && d.experimentPass == c.experimentPass + One(o.Measured? && o.fate == ExperimentPass)
  }

  // ----- the conservation laws

  /** Every packet has exactly one verdict. */
  predicate VerdictsBalance(c: Counters) {
    c.total == c.pass + c.cpumap + c.xsk
  }

  /** Every measured packet is stamped or not, entered or not, and dispatched, once each. */
  predicate MeasurementsBalance(c: Counters) {
    && c.hwtsValid + c.hwtsError == c.ingressRecorded + c.ingressDuplicate + c.ingressUpdateError
    && c.hwtsValid + c.hwtsError == c.cpumap + c.cpumapFallback + c.xsk + c.xskFallback + c.experimentPass
  }

  /** Everything else was passed up, with at most one reason noted. */
  predicate ReasonsBalance(c: Counters) {
    c.experimentPass + c.cpumapFallback + c.xskFallback
    + c.ipv4Invalid + c.ipv4Fragment + c.headerInvalid + c.metaAdjustError + c.metaBoundsError <= c.pass
  }

  /** Every accepted redirect was observed on the measuring CPU, with one of four results,
      except for `open` of them. */
  predicate RedirectsBalance(c: Counters, open: int) {
    c.cpumap == c.cpumapRecorded + c.cpumapDuplicate + c.cpumapUpdateError + c.cpumapMetaInvalid + open
  }

  predicate NonNegative(c: Counters) {
    && c.pass >= 0 && c.cpumap >= 0 && c.xsk >= 0 && c.experimentPass >= 0 && c.ipv4Invalid >= 0 && c.ipv4Fragment >= 0
    && c.headerInvalid >= 0 && c.metaAdjustError >= 0 && c.metaBoundsError >= 0 && c.hwtsValid >= 0 && c.hwtsError >= 0
    && c.ingressRecorded >= 0 && c.ingressDuplicate >= 0 && c.ingressUpdateError >= 0 && c.cpumapMetaInvalid >= 0
    && c.cpumapRecorded >= 0 && c.cpumapDuplicate >= 0 && c.cpumapUpdateError >= 0 && c.cpumapFallback >= 0 && c.xskFallback >= 0
  }

  predicate Balanced(c: Counters) {
    NonNegative(c) && VerdictsBalance(c) && MeasurementsBalance(c) && ReasonsBalance(c)
  }

  /** Whatever the outcome, the books stay balanced. */
  lemma OutcomeKeepsBalance(c: Counters, d: Counters, o: Outcome)
    requires Balanced(c) && Advanced(c, d, o)
    ensures Balanced(d)
  {
    match o
    case Measured(stamped, ingress, fate) =>
    case _ =>
  }

  // ----- the programs

  predicate WellMarked(m: Meta) {
    m.magic == META_MAGIC && m.version == META_VERSION && m.size == META_SIZE && m.idValid && m.path == Cpumap
  }

  function MetaFor(a: Arrival, key: Key, path: Path): Meta {
    Meta(META_MAGIC, META_VERSION, META_SIZE, a.timestamp.Stamp?, true, false, a.timestamp.StampError?, true,
         key, if a.timestamp.Stamp? then a.timestamp.ns else 0, a.now, 0, a.queue, path,
         if a.timestamp.StampError? then a.timestamp.code else 0)
  }

  function RecordFor(m: Meta): IngressRecord {
    IngressRecord(m.key, m.queue, m.hwTime, m.initialTime, m.hwtsValid, m.path, m.errorCode)
  }

  /** What an insert that must not overwrite answers. */
  function InsertAnswer(fault: bool, present: bool, size: nat, capacity: nat): Insertion {
    if fault then UpdateError else if present then Duplicate else if size >= capacity then UpdateError else Recorded
  }

  function FateOf(path: Path, cpumapReady: bool, xskReady: bool): Fate {
    match path
    case Cpumap => if cpumapReady then ToCpumap else CpumapFallback
    case Xsk => if xskReady then ToXsk else XskFallback
    case Pass => ExperimentPass
  }

  // ----- the books

  /** The counters, the two record maps, the packets handed to the measuring CPU but not yet
      seen there, the inserts made there but not yet counted, and how many packets were lost
      on the way or arrived there with another packet's key. */
  datatype Books = Books(
    stats: Counters, ingress: map<Key, IngressRecord>, measured: map<Key, CpumapRecord>,
    inflight: seq<Meta>, waiting: Waiting, lost: nat, altered: int)

  datatype Waiting = Waiting(recorded: int, duplicate: int, updateError: int)

  /** The waiting inserts by result. */
  function Waits(w: Waiting, r: Insertion): int {
    match r
    case Recorded => w.recorded
    case Duplicate => w.duplicate
    case UpdateError => w.updateError
  }

  function OneMore(w: Waiting, r: Insertion): Waiting {
    Waiting(w.recorded + One(r == Recorded), w.duplicate + One(r == Duplicate), w.updateError + One(r == UpdateError))
  }

  /** Redirected packets that no counter of the measuring CPU accounts for yet. */
  function Open(b: Books): int {
    |b.inflight| + b.waiting.recorded + b.waiting.duplicate + b.waiting.updateError + b.lost
  }

  predicate LawsOk(b: Books) {
    Balanced(b.stats) && RedirectsBalance(b.stats, Open(b)) && WaitingOk(b.waiting)
  }

  predicate WaitingOk(w: Waiting) {
    w.recorded >= 0 && w.duplicate >= 0 && w.updateError >= 0
  }

  predicate SizesOk(b: Books, capacity: nat) {
    && |b.ingress| == b.stats.ingressRecorded <= capacity
    && |b.measured| == b.stats.cpumapRecorded + b.waiting.recorded <= capacity
  }

  predicate ModeOk(c: Counters, mode: Mode) {
    && (mode != Mixed ==> c.cpumap + c.cpumapFallback == 0)
    && (mode == AllPass ==> c.xsk + c.xskFallback == 0)
  }

  /** The laws that hold after any number of packets, for every map capacity. */
  predicate CountersOk(b: Books, mode: Mode, capacity: nat) {
    LawsOk(b) && SizesOk(b, capacity) && ModeOk(b.stats, mode)
  }

  ghost predicate RecordsOk(b: Books) {
    && (forall k | k in b.ingress :: b.ingress[k].key == k)
    && (forall k | k in b.measured :: b.measured[k].key == k && b.measured[k].path == Cpumap)
    && (forall i | 0 <= i < |b.inflight| :: WellMarked(b.inflight[i]))
  }

  /** As long as no entry was refused and no key altered, everything on its way to the
      measuring CPU, and everything recorded there, was entered at ingress. */
  ghost predicate Entered(b: Books) {
    b.altered >= 0 && (b.stats.ingressUpdateError == 0 && b.altered == 0 ==>
      (forall i | 0 <= i < |b.inflight| :: b.inflight[i].key in b.ingress) && (forall k | k in b.measured :: k in b.ingress))
  }

  ghost predicate BooksOk(b: Books, mode: Mode, capacity: nat) {
    CountersOk(b, mode, capacity) && RecordsOk(b) && Entered(b)
  }

  /** The outcome of a frame that the parser judged to be `p`. */
  function OutcomeOf(p: Parsed, a: Arrival, b: Books, mode: Mode, capacity: nat): Outcome {
    if !p.Experiment? then NotMeasured(p) else if !a.adjustOk then NoRoom else if !a.boundsOk then NoBounds
    else Measured(a.timestamp.Stamp?, InsertAnswer(a.ingressFault, p.key in b.ingress, |b.ingress|, capacity),
                  FateOf(EffectivePath(mode, p.path), a.cpumapReady, a.xskReady))
  }

  /** What the classifier does to the books, by outcome. */
  predicate Dispatched(p: Parsed, b: Books, c: Books, a: Arrival, mode: Mode, o: Outcome) {
    && Advanced(b.stats, c.stats, o)
    && c.measured == b.measured && c.waiting == b.waiting && c.lost == b.lost && c.altered == b.altered
    && (o.Measured? ==> p.Experiment? && DispatchedMeta(b, c, MetaFor(a, p.key, EffectivePath(mode, p.path)), o))
    && (!o.Measured? ==> c.ingress == b.ingress && c.inflight == b.inflight)
  }

  predicate DispatchedMeta(b: Books, c: Books, meta: Meta, o: Outcome)
    requires o.Measured?
  {
    && c.ingress == (if o.ingress == Recorded then b.ingress[meta.key := RecordFor(meta)] else b.ingress)
    && c.inflight == (if o.fate == ToCpumap then b.inflight + [meta] else b.inflight)
  }

  /** The ingress map grows with its counter ... */
  lemma DispatchKeepsSizes(b: Books, c: Books, meta: Meta, capacity: nat, o: Outcome)
    requires o.Measured? && SizesOk(b, capacity) && DispatchedMeta(b, c, meta, o)
    requires c.measured == b.measured && c.waiting == b.waiting && c.stats.cpumapRecorded == b.stats.cpumapRecorded
    requires c.stats.ingressRecorded == b.stats.ingressRecorded + One(o.ingress == Recorded)
    requires o.ingress == Recorded ==> meta.key !in b.ingress && |b.ingress| < capacity
    ensures SizesOk(c, capacity)
  {
    if o.ingress == Recorded {
      assert c.ingress.Keys == b.ingress.Keys + {meta.key};
    }
  }

  /** ... and the queue with the redirects. */
  lemma DispatchKeepsRedirects(b: Books, c: Books, meta: Meta, o: Outcome)
    requires o.Measured? && RedirectsBalance(b.stats, Open(b)) && DispatchedMeta(b, c, meta, o)
    requires c.waiting == b.waiting && c.lost == b.lost && Advanced(b.stats, c.stats, o)
    ensures RedirectsBalance(c.stats, Open(c))
  {
    assert |c.inflight| == |b.inflight| + One(o.fate == ToCpumap);
  }

  lemma DispatchKeepsMode(p: Parsed, b: Books, c: Books, a: Arrival, mode: Mode, capacity: nat, o: Outcome)
    requires ModeOk(b.stats, mode) && Advanced(b.stats, c.stats, o) && o == OutcomeOf(p, a, b, mode, capacity)
    ensures ModeOk(c.stats, mode)
  {
  }

  lemma DispatchKeepsCounters(p: Parsed, b: Books, c: Books, a: Arrival, mode: Mode, capacity: nat, o: Outcome)
    requires CountersOk(b, mode, capacity) && Dispatched(p, b, c, a, mode, o) && o == OutcomeOf(p, a, b, mode, capacity)
    ensures CountersOk(c, mode, capacity)
  {
    OutcomeKeepsBalance(b.stats, c.stats, o);
    DispatchKeepsMode(p, b, c, a, mode, capacity, o);
    if o.Measured? {
      var meta := MetaFor(a, p.key, EffectivePath(mode, p.path));
      DispatchKeepsSizes(b, c, meta, capacity, o);
      DispatchKeepsRedirects(b, c, meta, o);
    }
  }

  lemma DispatchKeepsRecords(p: Parsed, b: Books, c: Books, a: Arrival, mode: Mode, capacity: nat, o: Outcome)
    requires RecordsOk(b) && Entered(b) && Balanced(b.stats)
    requires Dispatched(p, b, c, a, mode, o) && o == OutcomeOf(p, a, b, mode, capacity)
    ensures RecordsOk(c) && Entered(c)
    ensures forall k | k in b.ingress :: k in c.ingress && c.ingress[k] == b.ingress[k]
  {
  }

  /** Every frame keeps every law, and no record is ever overwritten. */
  lemma DispatchKeepsBooks(p: Parsed, b: Books, c: Books, a: Arrival, mode: Mode, capacity: nat, o: Outcome)
    requires BooksOk(b, mode, capacity) && Dispatched(p, b, c, a, mode, o) && o == OutcomeOf(p, a, b, mode, capacity)
    ensures BooksOk(c, mode, capacity)
    ensures forall k | k in b.ingress :: k in c.ingress && c.ingress[k] == b.ingress[k]
  {
    DispatchKeepsCounters(p, b, c, a, mode, capacity, o);
    DispatchKeepsRecords(p, b, c, a, mode, capacity, o);
  }

  function NoBooks(): Books {
    Books(ZERO, map[], map[], [], Waiting(0, 0, 0), 0, 0)
  }

  lemma BalanceAtStart(b: Books)
    requires b == NoBooks()
    ensures Balanced(b.stats) && RedirectsBalance(b.stats, Open(b))
  {
  }

  lemma WaitingAtStart(b: Books)
    requires b == NoBooks()
    ensures WaitingOk(b.waiting)
  {
  }

  lemma SizesAtStart(b: Books, mode: Mode, capacity: nat)
    requires b == NoBooks()
    ensures SizesOk(b, capacity) && ModeOk(b.stats, mode)
  {
  }

  lemma RecordsAtStart(b: Books)
    requires b == NoBooks()
    ensures RecordsOk(b) && Entered(b)
  {
  }

  lemma AllTogether(b: Books, mode: Mode, capacity: nat)
    requires Balanced(b.stats) && RedirectsBalance(b.stats, Open(b)) && WaitingOk(b.waiting)
    requires SizesOk(b, capacity) && ModeOk(b.stats, mode) && RecordsOk(b) && Entered(b)
    ensures BooksOk(b, mode, capacity)
  {
  }

  /** All laws hold before the first packet. */
  lemma NothingYet(b: Books, mode: Mode, capacity: nat)
    requires b == NoBooks()
    ensures BooksOk(b, mode, capacity)
  {
    BalanceAtStart(b);
    WaitingAtStart(b);
    SizesAtStart(b, mode, capacity);
    RecordsAtStart(b);
    AllTogether(b, mode, capacity);
  }

  // ----- what the outcome and the records of a frame are, from the frame and the answers

  /** When which outcome. */
  lemma OutcomeMeans(p: Parsed, a: Arrival, b: Books, mode: Mode, capacity: nat)
    ensures var o := OutcomeOf(p, a, b, mode, capacity);
            && (o.Measured? <==> p.Experiment? && a.adjustOk && a.boundsOk)
            && (!p.Experiment? ==> o == NotMeasured(p))
            && (p.Experiment? && !a.adjustOk ==> o == NoRoom)
            && (p.Experiment? && a.adjustOk && !a.boundsOk ==> o == NoBounds)
    ensures var o := OutcomeOf(p, a, b, mode, capacity);
            o.Measured? ==>
              && (o.stamped <==> a.timestamp.Stamp?)
              && (o.ingress == Recorded <==> !a.ingressFault && p.key !in b.ingress && |b.ingress| < capacity)
              && (o.ingress == Duplicate <==> !a.ingressFault && p.key in b.ingress)
              && (o.fate in {ToCpumap, CpumapFallback} <==> p.path == Cpumap && mode.Mixed?)
              && (o.fate in {ToXsk, XskFallback} <==> p.path == Xsk && !mode.AllPass?)
              && (o.fate == ToCpumap ==> a.cpumapReady) && (o.fate == CpumapFallback ==> !a.cpumapReady)
              && (o.fate == ToXsk ==> a.xskReady) && (o.fate == XskFallback ==> !a.xskReady)
  {
  }

  /** The ingress record of a frame that is recorded says when, where and how it arrived. */
  lemma IngressRecordMeans(p: Parsed, b: Books, c: Books, a: Arrival, mode: Mode, capacity: nat, o: Outcome)
    requires Dispatched(p, b, c, a, mode, o) && o == OutcomeOf(p, a, b, mode, capacity) && o.Measured? && o.ingress == Recorded
    ensures p.key in c.ingress
    ensures var r := c.ingress[p.key];
            && r.key == p.key && r.queue == a.queue && r.initialTime == a.now
            && r.path == (if mode.AllPass? || (mode.PassXsk? && p.path == Cpumap) then Pass else p.path)
            && (r.hwtsValid <==> a.timestamp.Stamp?)
            && r.hwTime == (if a.timestamp.Stamp? then a.timestamp.ns else 0)
            && r.errorCode == (if a.timestamp.StampError? then a.timestamp.code else 0)
    ensures forall k | k in c.ingress && k != p.key :: k in b.ingress && c.ingress[k] == b.ingress[k]
  {
  }

  /** The metadata sent along to the measuring CPU says the same. */
  lemma MetadataMeans(p: Parsed, b: Books, c: Books, a: Arrival, mode: Mode, capacity: nat, o: Outcome)
    requires Dispatched(p, b, c, a, mode, o) && o == OutcomeOf(p, a, b, mode, capacity) && o.Measured? && o.fate == ToCpumap
    ensures |c.inflight| == |b.inflight| + 1 && c.inflight[..|b.inflight|] == b.inflight
    ensures var m := c.inflight[|b.inflight|];
            && WellMarked(m) && m.pathRequested && !m.cpumapSeen && m.cpumapTime == 0
            && m.key == p.key && m.queue == a.queue && m.initialTime == a.now && m.path == Cpumap
            && (m.hwtsValid <==> a.timestamp.Stamp?) && (m.timestampError <==> a.timestamp.StampError?)
            && m.hwTime == (if a.timestamp.Stamp? then a.timestamp.ns else 0)
            && m.errorCode == (if a.timestamp.StampError? then a.timestamp.code else 0)
  {
  }

  // ----- the measuring CPU: an insert, and then its count

  /** Metadata is believed if it is there and marked as the classifier marks it. */
  predicate Believed(seen: Option<Meta>) {
    seen.Some? && WellMarked(seen.value)
  }

  /** The insert made for metadata that is believed. */
  function AnswerFor(b: Books, seen: Option<Meta>, fault: bool, capacity: nat): Insertion
    requires seen.Some?
  {
    InsertAnswer(fault, seen.value.key in b.measured, |b.measured|, capacity)
  }

  /** The i-th packet on its way arrives with the metadata `seen`: it is counted as invalid,
      or its record is inserted and the result waits to be counted. */
  predicate Reached(b: Books, c: Books, i: nat, seen: Option<Meta>, now: nat, cpu: nat, fault: bool, capacity: nat)
    requires i < |b.inflight|
  {
    && c.inflight == Without(b.inflight, i) && c.ingress == b.ingress && c.lost == b.lost
    && if !Believed(seen) then
         c.measured == b.measured && c.waiting == b.waiting && c.altered == b.altered
         && c.stats == b.stats.(cpumapMetaInvalid := b.stats.cpumapMetaInvalid + 1)
       else
         var key, r := seen.value.key, AnswerFor(b, seen, fault, capacity);
         && c.stats == b.stats && c.waiting == OneMore(b.waiting, r) && c.altered == b.altered + One(key != b.inflight[i].key)
         && c.measured == if r == Recorded then b.measured[key := CpumapRecord(key, cpu, now, Cpumap)] else b.measured
  }

  function CountInsertion(c: Counters, r: Insertion): Counters {
    match r
    case Recorded => c.(cpumapRecorded := c.cpumapRecorded + 1)
    case Duplicate => c.(cpumapDuplicate := c.cpumapDuplicate + 1)
    case UpdateError => c.(cpumapUpdateError := c.cpumapUpdateError + 1)
  }

  /** A waiting insert with result `r` is counted. */
  predicate Counted(b: Books, c: Books, r: Insertion) {
    && Waits(b.waiting, r) > 0 && b.waiting == OneMore(c.waiting, r)
    && c == b.(waiting := c.waiting, stats := CountInsertion(b.stats, r))
  }

  lemma ReachKeepsLaws(b: Books, c: Books, i: nat, seen: Option<Meta>, now: nat, cpu: nat, fault: bool, capacity: nat)
    requires LawsOk(b) && i < |b.inflight| && Reached(b, c, i, seen, now, cpu, fault, capacity)
    ensures LawsOk(c)
  {
    assert |c.inflight| == |b.inflight| - 1;
  }

  lemma ReachKeepsSizes(b: Books, c: Books, i: nat, seen: Option<Meta>, now: nat, cpu: nat, fault: bool, capacity: nat)
    requires SizesOk(b, capacity) && i < |b.inflight| && Reached(b, c, i, seen, now, cpu, fault, capacity)
    ensures SizesOk(c, capacity)
  {
    if c.measured != b.measured {
      assert c.measured.Keys == b.measured.Keys + {seen.value.key};
    }
  }

  lemma ReachKeepsCounters(b: Books, c: Books, mode: Mode, capacity: nat, i: nat, seen: Option<Meta>, now: nat, cpu: nat, fault: bool)
    requires CountersOk(b, mode, capacity) && i < |b.inflight| && Reached(b, c, i, seen, now, cpu, fault, capacity)
    ensures CountersOk(c, mode, capacity)
  {
    ReachKeepsLaws(b, c, i, seen, now, cpu, fault, capacity);
    ReachKeepsSizes(b, c, i, seen, now, cpu, fault, capacity);
  }

  lemma ReachKeepsRecords(b: Books, c: Books, capacity: nat, i: nat, seen: Option<Meta>, now: nat, cpu: nat, fault: bool)
    requires RecordsOk(b) && Entered(b) && i < |b.inflight| && Reached(b, c, i, seen, now, cpu, fault, capacity)
    ensures RecordsOk(c) && Entered(c)
    ensures forall k | k in b.measured :: k in c.measured && c.measured[k] == b.measured[k]
  {
  }

  /** The record made there says who, where and when; what was there before is untouched. */
  lemma CpumapRecordMeans(b: Books, c: Books, i: nat, seen: Option<Meta>, now: nat, cpu: nat, fault: bool, capacity: nat)
    requires i < |b.inflight| && Reached(b, c, i, seen, now, cpu, fault, capacity)
    ensures c.measured != b.measured ==>
              && Believed(seen) && !fault && seen.value.key !in b.measured && |b.measured| < capacity
              && seen.value.key in c.measured
              && c.measured[seen.value.key] == CpumapRecord(seen.value.key, cpu, now, seen.value.path)
              && c.measured - {seen.value.key} == b.measured
    ensures Believed(seen) && !fault && seen.value.key !in b.measured && |b.measured| < capacity ==> c.measured != b.measured
    ensures Believed(seen) <==>
              && seen.Some? && seen.value.magic == META_MAGIC && seen.value.version == META_VERSION && seen.value.size == META_SIZE
              && seen.value.idValid && seen.value.path == Cpumap
  {
    if c.measured != b.measured {
      assert (c.measured - {seen.value.key}).Keys == b.measured.Keys;
    }
  }

  lemma CountKeepsBooks(b: Books, c: Books, mode: Mode, capacity: nat, r: Insertion)
    requires BooksOk(b, mode, capacity) && Counted(b, c, r)
    ensures BooksOk(c, mode, capacity)
  {
  }

  lemma LossKeepsBooks(b: Books, mode: Mode, capacity: nat, i: nat)
    requires BooksOk(b, mode, capacity) && i < |b.inflight|
    ensures BooksOk(b.(inflight := Without(b.inflight, i), lost := b.lost + 1), mode, capacity)
  {
  }

  // ----- whole traces

  /** A frame judged `p` arrives, the i-th redirected packet reaches the measuring CPU with
      some metadata, an insert made there is counted, or a packet is lost on the way. */
  datatype Event =
    | Arrives(p: Parsed, a: Arrival) | Reaches(i: nat, seen: Option<Meta>, now: nat, cpu: nat, fault: bool)
    | Counts(r: Insertion) | Vanishes(i: nat)

  predicate StepOf(b: Books, c: Books, e: Event, mode: Mode, capacity: nat) {
    match e
    case Arrives(p, a) => Dispatched(p, b, c, a, mode, OutcomeOf(p, a, b, mode, capacity))
    case Reaches(i, seen, now, cpu, fault) => i < |b.inflight| && Reached(b, c, i, seen, now, cpu, fault, capacity)
    case Counts(r) => Counted(b, c, r)
    case Vanishes(i) => i < |b.inflight| && c == b.(inflight := Without(b.inflight, i), lost := b.lost + 1)
  }

  /** First write wins: whatever was recorded is still recorded, with the same value. */
  ghost predicate Extends(b: Books, c: Books) {
    && (forall k | k in b.ingress :: k in c.ingress && c.ingress[k] == b.ingress[k])
    && (forall k | k in b.measured :: k in c.measured && c.measured[k] == b.measured[k])
  }

  lemma EventKeepsBooks(b: Books, c: Books, e: Event, mode: Mode, capacity: nat)
    requires BooksOk(b, mode, capacity) && StepOf(b, c, e, mode, capacity)
    ensures BooksOk(c, mode, capacity) && Extends(b, c)
  {
    match e
    case Arrives(p, a) => DispatchKeepsBooks(p, b, c, a, mode, capacity, OutcomeOf(p, a, b, mode, capacity));
    case Reaches(i, seen, now, cpu, fault) =>
      ReachKeepsCounters(b, c, mode, capacity, i, seen, now, cpu, fault);
      ReachKeepsRecords(b, c, capacity, i, seen, now, cpu, fault);
    case Counts(r) => CountKeepsBooks(b, c, mode, capacity, r);
    case Vanishes(i) => LossKeepsBooks(b, mode, capacity, i);
  }

  /** Without CPUMAP forwarding nothing is ever counted, queued or recorded for it. */
  lemma NoCpumapWithoutMixed(b: Books, mode: Mode, capacity: nat)
    requires BooksOk(b, mode, capacity) && mode != Mixed
    ensures b.stats.cpumap == b.stats.cpumapFallback == b.stats.cpumapMetaInvalid == 0
    ensures b.stats.cpumapRecorded == b.stats.cpumapDuplicate == b.stats.cpumapUpdateError == 0
    ensures b.inflight == [] && b.waiting == Waiting(0, 0, 0) && b.measured == map[] && b.lost == 0
  {
    assert |b.measured| == 0 ==> b.measured == map[];
  }

  /** Over every trace, from any point of it on, every law holds and no record changes. */
  lemma {:induction false} TraceKeepsBooks(trace: seq<Books>, events: seq<Event>, mode: Mode, capacity: nat)
    requires |trace| == |events| + 1 && BooksOk(trace[0], mode, capacity)
    requires forall n | 0 <= n < |events| :: StepOf(trace[n], trace[n + 1], events[n], mode, capacity)
    ensures BooksOk(trace[|events|], mode, capacity) && Extends(trace[0], trace[|events|])
    decreases |events|
  {
    if events != [] {
      var n := |events| - 1;
      TraceKeepsBooks(trace[..n + 1], events[..n], mode, capacity);
      EventKeepsBooks(trace[n], trace[n + 1], events[n], mode, capacity);
    }
  }

  // ----- the programs

  class Programs {
    const mode: Mode
    const capacity: nat
    var stats: Counters
    var ingress: map<Key, IngressRecord>
    var measured: map<Key, CpumapRecord>
    var inflight: seq<Meta>
    var waiting: Waiting
    var lost: nat
    var altered: int

    ghost function View(): Books
      reads this
    {
      Books(stats, ingress, measured, inflight, waiting, lost, altered)
    }

    ghost predicate Valid()
      reads this
    {
      BooksOk(View(), mode, capacity)
    }

    constructor (mode: Mode, capacity: nat)
      ensures View() == NoBooks()
      ensures this.mode == mode && this.capacity == capacity && Valid()
    {
      this.mode, this.capacity := mode, capacity;
      stats, ingress, measured, inflight, waiting, lost, altered := ZERO, map[], map[], [], Waiting(0, 0, 0), 0, 0;
      new;
      NothingYet(View(), mode, capacity);
    }

    /** A new key is entered if there is room; an existing one keeps its first value. */
    method RecordIngress(meta: Meta, fault: bool) returns (r: Insertion)
      modifies this`stats, this`ingress
      ensures r == Recorded ==> stats == old(stats).(ingressRecorded := old(stats).ingressRecorded + 1)
      ensures r == Duplicate ==> stats == old(stats).(ingressDuplicate := old(stats).ingressDuplicate + 1)
      ensures r == UpdateError ==> stats == old(stats).(ingressUpdateError := old(stats).ingressUpdateError + 1)
      ensures r == InsertAnswer(fault, meta.key in old(ingress), |old(ingress)|, capacity)
      ensures ingress == if r == Recorded then old(ingress)[meta.key := RecordFor(meta)] else old(ingress)
    {
      r := if fault then UpdateError else if meta.key in ingress then Duplicate
           else if |ingress| >= capacity then UpdateError else Recorded;
      if r == Recorded {
        ingress := ingress[meta.key := RecordFor(meta)];
        stats := stats.(ingressRecorded := stats.ingressRecorded + 1);
      } else if r == Duplicate {
        stats := stats.(ingressDuplicate := stats.ingressDuplicate + 1);
      } else {
        stats := stats.(ingressUpdateError := stats.ingressUpdateError + 1);
      }
    }

    /** The metadata is written before the packet is entered or dispatched. */
    method PrepareMetadata(a: Arrival, key: Key, path: Path) returns (meta: Meta, r: Insertion)
      modifies this`stats, this`ingress
      ensures meta == MetaFor(a, key, path)
      ensures stats == old(stats).(
                hwtsValid := old(stats).hwtsValid + One(a.timestamp.Stamp?), hwtsError := old(stats).hwtsError + One(a.timestamp.StampError?),
                ingressRecorded := old(stats).ingressRecorded + One(r == Recorded),
                ingressDuplicate := old(stats).ingressDuplicate + One(r == Duplicate),
                ingressUpdateError := old(stats).ingressUpdateError + One(r == UpdateError))
      ensures r == InsertAnswer(a.ingressFault, key in old(ingress), |old(ingress)|, capacity)
      ensures ingress == if r == Recorded then old(ingress)[key := RecordFor(meta)] else old(ingress)
    {
      meta := Meta(META_MAGIC, META_VERSION, META_SIZE, false, true, false, false, true, key, 0, a.now, 0, a.queue, path, 0);
      match a.timestamp {
        case Stamp(ns) =>
          meta := meta.(hwTime := ns, hwtsValid := true);
          stats := stats.(hwtsValid := stats.hwtsValid + 1);
        case StampError(code) =>
          meta := meta.(timestampError := true, errorCode := code);
          stats := stats.(hwtsError := stats.hwtsError + 1);
      }
      r := RecordIngress(meta, a.ingressFault);
    }

    method DispatchRequestedPath(meta: Meta, cpumapReady: bool, xskReady: bool) returns (f: Fate)
      modifies this`stats, this`inflight
      ensures stats == old(stats).(
                cpumap := old(stats).cpumap + One(f == ToCpumap), cpumapFallback := old(stats).cpumapFallback + One(f == CpumapFallback),
                xsk := old(stats).xsk + One(f == ToXsk), xskFallback := old(stats).xskFallback + One(f == XskFallback),
                experimentPass := old(stats).experimentPass + One(f == ExperimentPass), pass := old(stats).pass + One(f !in {ToCpumap, ToXsk}))
      ensures f == FateOf(meta.path, cpumapReady, xskReady)
      ensures inflight == if f == ToCpumap then old(inflight) + [meta] else old(inflight)
    {
      if meta.path == Cpumap {
        if cpumapReady {
          stats := stats.(cpumap := stats.cpumap + 1);
          inflight := inflight + [meta];
          return ToCpumap;
        }
        stats := stats.(cpumapFallback := stats.cpumapFallback + 1);
        f := CpumapFallback;
      } else if meta.path == Xsk {
        if xskReady {
          stats := stats.(xsk := stats.xsk + 1);
          return ToXsk;
        }
        stats := stats.(xskFallback := stats.xskFallback + 1);
        f := XskFallback;
      } else {
        stats := stats.(experimentPass := stats.experimentPass + 1);
        f := ExperimentPass;
      }
      stats := stats.(pass := stats.pass + 1);
    }

    /** The counters' part of parse_experiment_packet. */
    method CountParsed(p: Parsed)
      modifies this`stats
      ensures stats == old(stats).(
                ipv4Invalid := old(stats).ipv4Invalid + One(p == InvalidIpv4), ipv4Fragment := old(stats).ipv4Fragment + One(p == Fragment),
                headerInvalid := old(stats).headerInvalid + One(p == BadHeader))
    {
      match p {
        case InvalidIpv4 => stats := stats.(ipv4Invalid := stats.ipv4Invalid + 1);
        case Fragment => stats := stats.(ipv4Fragment := stats.ipv4Fragment + 1);
        case BadHeader => stats := stats.(headerInvalid := stats.headerInvalid + 1);
        case _ =>
      }
    }

    /** A measured packet: metadata, ingress entry, dispatch. */
    method Measure(a: Arrival, key: Key, path: Path) returns (o: Outcome)
      modifies this`stats, this`ingress, this`inflight
      ensures o == Measured(a.timestamp.Stamp?, InsertAnswer(a.ingressFault, key in old(ingress), |old(ingress)|, capacity),
                            FateOf(path, a.cpumapReady, a.xskReady))
      ensures Advanced(old(stats).(total := old(stats).total - 1), stats, o)
      ensures DispatchedMeta(old(View()), View(), MetaFor(a, key, path), o)
    {
      var meta, r := PrepareMetadata(a, key, path);
      var fate := DispatchRequestedPath(meta, a.cpumapReady, a.xskReady);
      o := Measured(a.timestamp.Stamp?, r, fate);
    }

    /** Malformed envelopes and packets without room for metadata are counted and passed. */
    method PassUnmeasured(a: Arrival, parsed: Parsed) returns (o: Outcome)
      requires !parsed.Experiment? || !a.adjustOk || !a.boundsOk
      modifies this`stats
      ensures o == OutcomeOf(parsed, a, old(View()), mode, capacity) && !o.Measured?
      ensures Advanced(old(stats).(total := old(stats).total - 1), stats, o)
    {
      CountParsed(parsed);
      if !parsed.Experiment? {
        o := NotMeasured(parsed);
      } else if !a.adjustOk {
        stats := stats.(metaAdjustError := stats.metaAdjustError + 1);
        o := NoRoom;
      } else {
        stats := stats.(metaBoundsError := stats.metaBoundsError + 1);
        o := NoBounds;
      }
      stats := stats.(pass := stats.pass + 1);
    }

    /** The classifier program, for one frame: exactly one outcome is counted, and the maps
        and the queue change as that outcome says. */
    method XdpDispatch(a: Arrival) returns (o: Outcome)
      requires Valid()
      modifies this
      ensures o == OutcomeOf(ParseXdp(a.frame), a, old(View()), mode, capacity)
      ensures Dispatched(ParseXdp(a.frame), old(View()), View(), a, mode, o)
      ensures Valid()
    {
      var parsed := ParseXdp(a.frame);
      o := Handle(a, parsed);
    }

    method Handle(a: Arrival, parsed: Parsed) returns (o: Outcome)
      requires Valid()
      modifies this
      ensures o == OutcomeOf(parsed, a, old(View()), mode, capacity)
      ensures Dispatched(parsed, old(View()), View(), a, mode, o)
      ensures Valid()
    {
      stats := stats.(total := stats.total + 1);
      if parsed.Experiment? && a.adjustOk && a.boundsOk {
        o := Measure(a, parsed.key, EffectivePath(mode, parsed.path));
      } else {
        o := PassUnmeasured(a, parsed);
      }
      assert Dispatched(parsed, old(View()), View(), a, mode, o);
      DispatchKeepsBooks(parsed, old(View()), View(), a, mode, capacity, o);
    }

    /** The program on the measuring CPU, for one packet that arrives there with whatever
        metadata: first the insert, then its count. */
    method XdpCpumapMeasure(i: nat, seen: Option<Meta>, now: nat, cpu: nat, fault: bool) returns (ghost between: Books)
      requires Valid() && i < |inflight|
      modifies this
      ensures Reached(old(View()), between, i, seen, now, cpu, fault, capacity) && BooksOk(between, mode, capacity)
      ensures if Believed(seen) then Counted(between, View(), AnswerFor(old(View()), seen, fault, capacity)) else View() == between
      ensures Valid()
    {
      var r := EnterRecord(i, seen, now, cpu, fault);
      between := View();
      if r.Some? {
        Count(r.value);
      }
    }

    /** Everything up to the map update. */
    method EnterRecord(i: nat, seen: Option<Meta>, now: nat, cpu: nat, fault: bool) returns (r: Option<Insertion>)
      requires Valid() && i < |inflight|
      modifies this
      ensures Reached(old(View()), View(), i, seen, now, cpu, fault, capacity) && Valid()
      ensures r.Some? <==> Believed(seen)
      ensures r.Some? ==> r.value == AnswerFor(old(View()), seen, fault, capacity) && waiting == OneMore(old(waiting), r.value)
    {
      r := TryRecord(i, seen, now, cpu, fault);
      ReachKeepsCounters(old(View()), View(), mode, capacity, i, seen, now, cpu, fault);
      ReachKeepsRecords(old(View()), View(), capacity, i, seen, now, cpu, fault);
    }

    method TryRecord(i: nat, seen: Option<Meta>, now: nat, cpu: nat, fault: bool) returns (r: Option<Insertion>)
      requires i < |inflight|
      modifies this
      ensures Reached(old(View()), View(), i, seen, now, cpu, fault, capacity)
      ensures r.Some? <==> Believed(seen)
      ensures r.Some? ==> r.value == AnswerFor(old(View()), seen, fault, capacity) && waiting == OneMore(old(waiting), r.value)
    {
      var sent := inflight[i].key;
      inflight := Without(inflight, i);
      if seen.None? || seen.value.magic != META_MAGIC || seen.value.version != META_VERSION || seen.value.size != META_SIZE
         || !seen.value.idValid || seen.value.path != Cpumap {
        stats := stats.(cpumapMetaInvalid := stats.cpumapMetaInvalid + 1);
        return None;
      }
      var m := seen.value.(cpumapTime := now, cpumapSeen := true);
      var answer := InsertRecord(CpumapRecord(m.key, cpu, m.cpumapTime, m.path), fault);
      waiting := OneMore(waiting, answer);
      altered := altered + One(m.key != sent);
      return Some(answer);
    }

    /** The map update: an existing record is kept. */
    method InsertRecord(record: CpumapRecord, fault: bool) returns (r: Insertion)
      modifies this`measured
      ensures r == InsertAnswer(fault, record.key in old(measured), |old(measured)|, capacity)
      ensures measured == if r == Recorded then old(measured)[record.key := record] else old(measured)
    {
      if fault {
        return UpdateError;
      }
      if record.key in measured {
        return Duplicate;
      }
      if |measured| >= capacity {
        return UpdateError;
      }
      measured := measured[record.key := record];
      return Recorded;
    }

    /** The count that follows it. */
    method Count(r: Insertion)
      requires Valid() && Waits(waiting, r) > 0
      modifies this`stats, this`waiting
      ensures Valid() && Counted(old(View()), View(), r)
    {
      if r == Recorded {
        stats := stats.(cpumapRecorded := stats.cpumapRecorded + 1);
        waiting := waiting.(recorded := waiting.recorded - 1);
      } else if r == Duplicate {
        stats := stats.(cpumapDuplicate := stats.cpumapDuplicate + 1);
        waiting := waiting.(duplicate := waiting.duplicate - 1);
      } else {
        stats := stats.(cpumapUpdateError := stats.cpumapUpdateError + 1);
        waiting := waiting.(updateError := waiting.updateError - 1);
      }
      CountKeepsBooks(old(View()), View(), mode, capacity, r);
    }
  }
}
