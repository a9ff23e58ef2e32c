/** One packet's row of the offline join: which timestamps may be trusted, which delays
    follow from them, and how they decompose (joined_row in analysis/join_results.py). */
module JoinRow {
  import opened Wrappers
  import opened Calibration

  const PASS := 0
  const CPUMAP := 1
  const XSK := 2
  const U32_MAX := 0xFFFF_FFFF
  const U64_MAX := 0xFFFF_FFFF_FFFF_FFFF

  datatype Ingress = Ingress(flags: int, path: int, queue: int, hw: int, initialXdp: int, tsError: int)
  datatype CpumapRecord = CpumapRecord(flags: int, path: int, cpumapTime: int)
  datatype AfXdp = AfXdp(flags: int, validation: int, path: int, queue: int, hw: int, initialXdp: int, tsError: int, userMono: int)
  datatype Udp = Udp(flags: int, hw: int, userMono: int)

  /** What the four sources recorded about one packet. */
  datatype Sources = Sources(ingress: Option<Ingress>, cpumap: Option<CpumapRecord>, afxdp: Option<AfXdp>, udp: Option<Udp>)

  // ----- flag words; division rounds down, so these are the bits of negative words, too

  predicate HwtsValid(f: int) { f % 2 == 1 }
  predicate IdValid(f: int) { f / 2 % 2 == 1 }
  predicate CpumapSeen(f: int) { f / 4 % 2 == 1 }
  predicate TimestampError(f: int) { f / 8 % 2 == 1 }
  predicate PathRequested(f: int) { f / 16 % 2 == 1 }
  predicate OnlyKnown(f: int) { f / 32 == 0 }
  predicate CmsgTruncated(f: int) { f / 2 % 2 == 1 }
  predicate OnlyKnownUdp(f: int) { f / 4 == 0 }

  predicate ValidPath(p: int) { p == PASS || p == CPUMAP || p == XSK }

  function Positive(x: int): Option<int> { if x > 0 then Some(x) else None }

  function PositiveU64(x: int): Option<int> { if 0 < x <= U64_MAX then Some(x) else None }

  predicate TimestampCoherent(flags: int, hw: int, error: int) {
    && 0 <= flags <= U32_MAX && OnlyKnown(flags) && 0 <= hw <= U64_MAX && -0x8000 <= error <= 0x7FFF
    && (TimestampError(flags) <==> error != 0)
    && (if HwtsValid(flags) then hw > 0 && !TimestampError(flags) else hw == 0)
  }

  // ----- which records are believed

  predicate IngressCore(i: Ingress) {
    && ValidPath(i.path) && IdValid(i.flags) && PathRequested(i.flags) && !CpumapSeen(i.flags) && OnlyKnown(i.flags)
    && 0 <= i.flags <= U32_MAX && PositiveU64(i.initialXdp).Some?
  }

  predicate IngressCoreValid(s: Sources) { s.ingress.Some? && IngressCore(s.ingress.value) }

  predicate IngressHwValid(s: Sources) {
    && IngressCoreValid(s)
    && TimestampCoherent(s.ingress.value.flags, s.ingress.value.hw, s.ingress.value.tsError) && HwtsValid(s.ingress.value.flags)
  }

  predicate CpumapFlagsOk(f: int) {
    IdValid(f) && CpumapSeen(f) && PathRequested(f) && 0 <= f <= U32_MAX && OnlyKnown(f)
  }

  predicate CpumapValid(s: Sources) {
    && s.cpumap.Some?
    && s.cpumap.value.path == CPUMAP && CpumapFlagsOk(s.cpumap.value.flags) && PositiveU64(s.cpumap.value.cpumapTime).Some?
    && (s.ingress.None? || (IngressCoreValid(s) && s.ingress.value.path == CPUMAP))
  }

  predicate AfXdpCore(a: AfXdp) {
    && a.validation == 7 && IdValid(a.flags) && PathRequested(a.flags) && !CpumapSeen(a.flags)
    && 0 <= a.flags <= U32_MAX && OnlyKnown(a.flags) && a.path == XSK
    && PositiveU64(a.initialXdp).Some? && Positive(a.userMono).Some? && TimestampCoherent(a.flags, a.hw, a.tsError)
  }

  predicate AfXdpCoreValid(s: Sources) { s.afxdp.Some? && AfXdpCore(s.afxdp.value) }

  predicate AfXdpConsistent(s: Sources) {
    && AfXdpCoreValid(s)
    && (s.ingress.Some? ==>
          var a, i := s.afxdp.value, s.ingress.value;
          a.queue == i.queue && a.hw == i.hw && a.initialXdp == i.initialXdp && a.flags == i.flags && a.path == i.path && a.tsError == i.tsError)
  }

  predicate AfXdpHwValid(s: Sources) { AfXdpCoreValid(s) && HwtsValid(s.afxdp.value.flags) }

  predicate UdpHwValid(s: Sources) {
    s.udp.Some? && HwtsValid(s.udp.value.flags) && s.udp.value.hw > 0 && !CmsgTruncated(s.udp.value.flags)
  }

  predicate UdpValid(s: Sources) {
    && s.udp.Some?
    && var u := s.udp.value;
    && u.userMono > 0 && OnlyKnownUdp(u.flags)
    && !(HwtsValid(u.flags) && CmsgTruncated(u.flags)) && (HwtsValid(u.flags) <==> u.hw > 0)
    && !(UdpHwValid(s) && IngressHwValid(s) && u.hw != s.ingress.value.hw)
  }

  predicate AfXdpPathWrong(s: Sources) {
    s.afxdp.Some? && (s.afxdp.value.path != XSK || (s.ingress.Some? && s.ingress.value.path != XSK))
  }

  predicate UdpPathWrong(s: Sources) {
    s.udp.Some? && s.ingress.Some? && s.ingress.value.path == XSK
  }

  /** Some bit of the inconsistency word is set. */
  predicate Inconsistent(s: Sources) {
    || (s.ingress.Some? && (!ValidPath(s.ingress.value.path) || !IngressCore(s.ingress.value)
          || !TimestampCoherent(s.ingress.value.flags, s.ingress.value.hw, s.ingress.value.tsError)))
    || (s.cpumap.Some? && (s.cpumap.value.path != CPUMAP || !CpumapFlagsOk(s.cpumap.value.flags)
          || (s.ingress.Some? && (s.ingress.value.path != CPUMAP || s.cpumap.value.path != s.ingress.value.path))))
    || AfXdpPathWrong(s) || (s.afxdp.Some? && !AfXdpConsistent(s))
    || UdpPathWrong(s) || (s.udp.Some? && !UdpValid(s))
    || (s.afxdp.Some? && s.udp.Some?)
  }

  // ----- the user side

  datatype UserSource = NoUser | Ambiguous | FromAfXdp | FromUdp

  function UserOf(s: Sources): UserSource {
    if s.afxdp.Some? && s.udp.Some? then Ambiguous else if s.afxdp.Some? then FromAfXdp else if s.udp.Some? then FromUdp else NoUser
  }

  /** The raw user timestamp, as it is written into the row. */
  function UserRaw(s: Sources): Option<int> {
    match UserOf(s)
    case FromAfXdp => Some(s.afxdp.value.userMono)
    case FromUdp => Some(s.udp.value.userMono)
    case _ => None
  }

  function UserMono(s: Sources): Option<int> {
    if UserRaw(s).None? then None else Positive(UserRaw(s).value)
  }

  predicate UserValid(s: Sources) {
    match UserOf(s)
    case FromAfXdp => AfXdpConsistent(s) && !AfXdpPathWrong(s)
    case FromUdp => UdpValid(s) && !UdpPathWrong(s)
    case _ => false
  }

  function UserHw(s: Sources): Option<int> {
    match UserOf(s)
    case FromAfXdp =>
      if s.ingress.Some? then (if IngressHwValid(s) then Positive(s.ingress.value.hw) else None)
      else if AfXdpHwValid(s) then Positive(s.afxdp.value.hw) else None
    case FromUdp =>
      if UdpHwValid(s) then Positive(s.udp.value.hw) else if IngressHwValid(s) then Positive(s.ingress.value.hw) else None
    case _ => None
  }

  // ----- the XDP side

  function RawXdp(s: Sources): Option<int> {
    if s.ingress.Some? then PositiveU64(s.ingress.value.initialXdp)
    else if s.afxdp.Some? then PositiveU64(s.afxdp.value.initialXdp) else None
  }

  function InitialXdp(s: Sources): Option<int> {
    if s.ingress.Some? then (if IngressCoreValid(s) then PositiveU64(s.ingress.value.initialXdp) else None)
    else if AfXdpCoreValid(s) then PositiveU64(s.afxdp.value.initialXdp) else None
  }

  function XdpHw(s: Sources): Option<int> {
    if s.ingress.Some? then (if IngressHwValid(s) then Positive(s.ingress.value.hw) else None)
    else if AfXdpHwValid(s) then Positive(s.afxdp.value.hw) else None
  }

  function CpumapTime(s: Sources): Option<int> {
    if s.cpumap.Some? then PositiveU64(s.cpumap.value.cpumapTime) else None
  }

  function RequestedPath(s: Sources): Option<int> {
    if s.ingress.Some? then Some(s.ingress.value.path) else if s.afxdp.Some? then Some(s.afxdp.value.path)
    else if s.cpumap.Some? then Some(s.cpumap.value.path) else None
  }

  // ----- delays

  function Minus(a: Option<int>, b: Option<int>): Option<int> {
    if a.Some? && b.Some? then Some(a.value - b.value) else None
  }

  function OffsetAt(t: Option<int>, points: seq<Point>, clamp: bool): Option<int>
    requires points != [] && Increasing(points)
  {
    if t.None? then None else LookupAt(points, t.value, clamp).offset
  }

  /** The hardware time used for every delay of the packet, on the PHC. */
  function CommonHw(s: Sources): Option<int> {
    if XdpHw(s).Some? then XdpHw(s) else if UserValid(s) then UserHw(s) else None
  }

  /** The hardware time on the monotonic clock: one conversion per packet, by the offset at
      the XDP time if there is one and at the user time otherwise. */
  function HwMono(s: Sources, points: seq<Point>, clamp: bool): Option<int>
    requires points != [] && Increasing(points)
  {
    var offset := if InitialXdp(s).Some? then OffsetAt(RawXdp(s), points, clamp) else OffsetAt(UserMono(s), points, clamp);
    Minus(CommonHw(s), offset)
  }

  datatype Status = Invalid | Incomplete | Complete | Mismatch

  /** The delays of a row: wire to XDP, XDP to CPUMAP, CPUMAP or XDP to user, and the
      independently computed total. */
  datatype Delays = Delays(d1: Option<int>, d2: Option<int>, d3: Option<int>, total: Option<int>)

  function CpumapXdp(s: Sources): Option<int> { if CpumapValid(s) then Minus(CpumapTime(s), InitialXdp(s)) else None }
  function UserXdp(s: Sources): Option<int> { if UserValid(s) then Minus(UserMono(s), InitialXdp(s)) else None }
  function UserCpumap(s: Sources): Option<int> { if UserValid(s) && CpumapValid(s) then Minus(UserMono(s), CpumapTime(s)) else None }

  function DelaysOf(s: Sources, points: seq<Point>, clamp: bool): Delays
    requires points != [] && Increasing(points)
  {
    var hw := HwMono(s, points, clamp);
    var path := RequestedPath(s);
    Delays(
      Minus(InitialXdp(s), hw),
      if path == Some(CPUMAP) then CpumapXdp(s) else if path == Some(PASS) || path == Some(XSK) then Some(0) else None,
      if path == Some(CPUMAP) then UserCpumap(s) else if path == Some(PASS) || path == Some(XSK) then UserXdp(s) else None,
      if UserValid(s) then Minus(UserMono(s), hw) else None)
  }

  function StageSum(d: Delays): Option<int> {
    if d.d1.Some? && d.d2.Some? && d.d3.Some? then Some(d.d1.value + d.d2.value + d.d3.value) else None
  }

  function Residual(d: Delays): Option<int> { Minus(d.total, StageSum(d)) }

  predicate IsNegative(x: Option<int>) { x.Some? && x.value < 0 }

  predicate AnyNegative(d: Delays) { IsNegative(d.d1) || IsNegative(d.d2) || IsNegative(d.d3) || IsNegative(d.total) }

  function StatusOf(inconsistent: bool, d: Delays): Status {
    if inconsistent || AnyNegative(d) then Invalid
    else if Residual(d).None? then Incomplete
    else if Residual(d).value == 0 then Complete else Mismatch
  }

  /** The part of a row that the clock validation reads. */
  datatype Row = Row(initialXdp: Option<int>, userRaw: Option<int>, delays: Delays, status: Status)

  function JoinedRow(s: Sources, points: seq<Point>, clamp: bool): Row
    requires points != [] && Increasing(points)
  {
    var d := DelaysOf(s, points, clamp);
    Row(InitialXdp(s), UserRaw(s), d, StatusOf(Inconsistent(s), d))
  }

  // ----- the decomposition telescopes

  /** For every combination of present, absent and contradictory sources: the residual is
      zero whenever it is defined, and it is defined exactly when all three segments are. */
  lemma ResidualIsZero(s: Sources, points: seq<Point>, clamp: bool)
    requires points != [] && Increasing(points)
    ensures var d := DelaysOf(s, points, clamp);
            && (Residual(d).Some? <==> d.d1.Some? && d.d2.Some? && d.d3.Some?)
            && (Residual(d).Some? ==> Residual(d).value == 0)
            && JoinedRow(s, points, clamp).status != Mismatch
  {
    var hw := HwMono(s, points, clamp);
    var d := DelaysOf(s, points, clamp);
    if d.d1.Some? && d.d2.Some? && d.d3.Some? {
      assert UserValid(s) && UserMono(s).Some?;
      Telescopes(s, hw, d);
    }
  }

  lemma Telescopes(s: Sources, hw: Option<int>, d: Delays)
    requires UserValid(s) && d.d1 == Minus(InitialXdp(s), hw) && d.total == Minus(UserMono(s), hw)
    requires d.d1.Some? && d.d2.Some? && d.d3.Some?
    requires (d.d2 == CpumapXdp(s) && d.d3 == UserCpumap(s)) || (d.d2 == Some(0) && d.d3 == UserXdp(s))
    ensures d.total.Some? && d.total.value == d.d1.value + d.d2.value + d.d3.value
  {
  }

  /** What a complete row says: the times of observation are all there and in order, no
      segment is negative, and the segments sum to the total. */
  lemma CompleteRowIsOrdered(s: Sources, points: seq<Point>, clamp: bool)
    requires points != [] && Increasing(points) && JoinedRow(s, points, clamp).status == Complete
    ensures !Inconsistent(s) && InitialXdp(s).Some? && UserMono(s).Some? && HwMono(s, points, clamp).Some?
    ensures HwMono(s, points, clamp).value <= InitialXdp(s).value <= UserMono(s).value
    ensures RequestedPath(s) == Some(CPUMAP) ==>
              CpumapTime(s).Some? && InitialXdp(s).value <= CpumapTime(s).value <= UserMono(s).value
    ensures var d := DelaysOf(s, points, clamp);
            && d.d1.Some? && d.d2.Some? && d.d3.Some? && d.total.Some?
            && 0 <= d.d1.value && 0 <= d.d2.value && 0 <= d.d3.value
            && d.total.value == d.d1.value + d.d2.value + d.d3.value == UserMono(s).value - HwMono(s, points, clamp).value
  {
    ResidualIsZero(s, points, clamp);
  }

  /** The hardware time of a row with an XDP time was converted at that very time. */
  lemma ConvertedAtXdp(s: Sources, points: seq<Point>, clamp: bool)
    requires points != [] && Increasing(points) && InitialXdp(s).Some? && HwMono(s, points, clamp).Some?
    ensures CommonHw(s).Some? && LookupAt(points, InitialXdp(s).value, clamp).offset.Some?
    ensures HwMono(s, points, clamp).value == CommonHw(s).value - LookupAt(points, InitialXdp(s).value, clamp).offset.value
  {
  }

  // ----- the delays of a row from the raw records

  lemma Halve(low: int, high: int)
    requires 0 <= low <= 1
    ensures (low + 2 * high) % 2 == low && (low + 2 * high) / 2 == high
  {
  }

  lemma Quotients(f: int)
    ensures f / 4 == f / 2 / 2 && f / 8 == f / 4 / 2 && f / 16 == f / 8 / 2 && f / 32 == f / 16 / 2
  {
  }

  /** The bits of a flag word. */
  lemma FlagBits(hwts: int, id: int, seen: int, error: int, path: int, rest: int, f: int)
    requires 0 <= hwts <= 1 && 0 <= id <= 1 && 0 <= seen <= 1 && 0 <= error <= 1 && 0 <= path <= 1
    requires f == hwts + 2 * (id + 2 * (seen + 2 * (error + 2 * (path + 2 * rest))))
    ensures (HwtsValid(f) <==> hwts == 1) && (IdValid(f) <==> id == 1) && (CpumapSeen(f) <==> seen == 1)
    ensures (TimestampError(f) <==> error == 1) && (PathRequested(f) <==> path == 1) && (OnlyKnown(f) <==> rest == 0)
  {
    Quotients(f);
    Halve(hwts, id + 2 * (seen + 2 * (error + 2 * (path + 2 * rest))));
    Halve(id, seen + 2 * (error + 2 * (path + 2 * rest)));
    Halve(seen, error + 2 * (path + 2 * rest));
    Halve(error, path + 2 * rest);
    Halve(path, rest);
  }

  /** A flag word made of its bits ... */
  function FlagWord(hwts: bool, id: bool, seen: bool, error: bool, path: bool): int {
    One(hwts) + 2 * (One(id) + 2 * (One(seen) + 2 * (One(error) + 2 * One(path))))
  }

  lemma WordReads(hwts: bool, id: bool, seen: bool, error: bool, path: bool)
    ensures var f := FlagWord(hwts, id, seen, error, path);
            && (HwtsValid(f) <==> hwts) && (IdValid(f) <==> id) && (CpumapSeen(f) <==> seen)
            && (TimestampError(f) <==> error) && (PathRequested(f) <==> path) && OnlyKnown(f) && 0 <= f <= 31
  {
    FlagBits(One(hwts), One(id), One(seen), One(error), One(path), 0, FlagWord(hwts, id, seen, error, path));
  }

  /** ... and into its bits. */
  lemma WordOf(f: int)
    requires OnlyKnown(f)
    ensures f == FlagWord(HwtsValid(f), IdValid(f), CpumapSeen(f), TimestampError(f), PathRequested(f))
  {
    Quotients(f);
    Parity(f);
    Parity(f / 2);
    Parity(f / 4);
    Parity(f / 8);
    Parity(f / 16);
  }

  lemma Parity(f: int)
    ensures f == One(f % 2 == 1) + 2 * (f / 2)
  {
  }

  lemma UdpFlagBits(hwts: int, truncated: int, rest: int, f: int)
    requires 0 <= hwts <= 1 && 0 <= truncated <= 1 && f == hwts + 2 * (truncated + 2 * rest)
    ensures (HwtsValid(f) <==> hwts == 1) && (CmsgTruncated(f) <==> truncated == 1) && (OnlyKnownUdp(f) <==> rest == 0)
  {
    Quotients(f);
    Halve(hwts, truncated + 2 * rest);
    Halve(truncated, rest);
  }

  // ----- which records are believed, in terms of their values

  /** Stamped with a positive hardware time and no error, or neither stamped nor timed; an error
      is marked exactly if there is one. */
  predicate StampOk(stamped: bool, error: bool, hw: int, code: int) {
    && 0 <= hw <= U64_MAX && -0x8000 <= code <= 0x7FFF && (error <==> code != 0)
    && (stamped ==> hw > 0 && !error) && (!stamped ==> hw == 0)
  }

  ghost predicate SoundIngress(i: Ingress) {
    && i.path in {PASS, CPUMAP, XSK} && 0 < i.initialXdp <= U64_MAX
    && exists stamped, error :: i.flags == FlagWord(stamped, true, false, error, true) && StampOk(stamped, error, i.hw, i.tsError)
  }

  ghost predicate SoundCpumap(c: CpumapRecord) {
    c.path == CPUMAP && exists stamped, error :: c.flags == FlagWord(stamped, true, true, error, true)
  }

  ghost predicate SoundAfXdp(a: AfXdp) {
    && a.validation == 7 && a.path == XSK && 0 < a.initialXdp <= U64_MAX && a.userMono > 0
    && exists stamped, error :: a.flags == FlagWord(stamped, true, false, error, true) && StampOk(stamped, error, a.hw, a.tsError)
  }

  /** Stamped, unstamped, or unstamped because the control message was cut off. */
  predicate SoundUdp(u: Udp) {
    u.userMono > 0 && ((u.flags == 1 && u.hw > 0) || ((u.flags == 0 || u.flags == 2) && u.hw <= 0))
  }

  lemma IngressSoundExactly(i: Ingress)
    ensures IngressCore(i) && TimestampCoherent(i.flags, i.hw, i.tsError) <==> SoundIngress(i)
  {
    if IngressCore(i) && TimestampCoherent(i.flags, i.hw, i.tsError) {
      WordOf(i.flags);
      assert i.flags == FlagWord(HwtsValid(i.flags), true, false, TimestampError(i.flags), true);
      assert StampOk(HwtsValid(i.flags), TimestampError(i.flags), i.hw, i.tsError);
    }
    if SoundIngress(i) {
      var stamped, error :| i.flags == FlagWord(stamped, true, false, error, true) && StampOk(stamped, error, i.hw, i.tsError);
      WordReads(stamped, true, false, error, true);
    }
  }

  lemma CpumapSoundExactly(c: CpumapRecord)
    ensures c.path == CPUMAP && CpumapFlagsOk(c.flags) <==> SoundCpumap(c)
  {
    if CpumapFlagsOk(c.flags) {
      WordOf(c.flags);
      assert c.flags == FlagWord(HwtsValid(c.flags), true, true, TimestampError(c.flags), true);
    }
    if SoundCpumap(c) {
      var stamped, error :| c.flags == FlagWord(stamped, true, true, error, true);
      WordReads(stamped, true, true, error, true);
    }
  }

  lemma AfXdpSoundExactly(a: AfXdp)
    ensures AfXdpCore(a) <==> SoundAfXdp(a)
  {
    if AfXdpCore(a) {
      WordOf(a.flags);
      assert a.flags == FlagWord(HwtsValid(a.flags), true, false, TimestampError(a.flags), true);
      assert StampOk(HwtsValid(a.flags), TimestampError(a.flags), a.hw, a.tsError);
    }
    if SoundAfXdp(a) {
      var stamped, error :| a.flags == FlagWord(stamped, true, false, error, true) && StampOk(stamped, error, a.hw, a.tsError);
      WordReads(stamped, true, false, error, true);
    }
  }

  lemma UdpSoundExactly(u: Udp)
    ensures SoundUdp(u) <==>
              && u.userMono > 0 && OnlyKnownUdp(u.flags) && !(HwtsValid(u.flags) && CmsgTruncated(u.flags))
              && (HwtsValid(u.flags) <==> u.hw > 0)
  {
    Quotients(u.flags);
    Parity(u.flags);
    Parity(u.flags / 2);
    UdpFlagBits(0, 0, 0, 0);
    UdpFlagBits(1, 0, 0, 1);
    UdpFlagBits(0, 1, 0, 2);
  }

  /** An ingress record whose path and time can be used, whatever its stamp. */
  ghost predicate UsableIngress(i: Ingress) {
    && i.path in {PASS, CPUMAP, XSK} && 0 < i.initialXdp <= U64_MAX
    && exists stamped, error :: i.flags == FlagWord(stamped, true, false, error, true)
  }

  lemma UsableExactly(i: Ingress)
    ensures IngressCore(i) <==> UsableIngress(i)
  {
    if IngressCore(i) {
      WordOf(i.flags);
      assert i.flags == FlagWord(HwtsValid(i.flags), true, false, TimestampError(i.flags), true);
    }
    if UsableIngress(i) {
      var stamped, error :| i.flags == FlagWord(stamped, true, false, error, true);
      WordReads(stamped, true, false, error, true);
    }
  }

  /** The six values an AF_XDP record shares with the ingress record of its packet. */
  predicate SameMeta(a: AfXdp, i: Ingress) {
    a.queue == i.queue && a.hw == i.hw && a.initialXdp == i.initialXdp && a.flags == i.flags && a.path == i.path && a.tsError == i.tsError
  }

  /** A packet of the UDP receiver did not go to the socket of AF_XDP, and if both hardware times
      are there they are one. */
  predicate SameStamp(u: Udp, i: Ingress) {
    i.path != XSK && (u.hw > 0 && i.hw > 0 ==> u.hw == i.hw)
  }

  /** When nothing is held against a packet, exactly: every record of it is sound, the records
      agree with the ingress record, and only one receiver saw it. */
  lemma ConsistentExactly(s: Sources)
    ensures !Inconsistent(s) <==>
              && (s.ingress.Some? ==> SoundIngress(s.ingress.value))
              && (s.cpumap.Some? ==> SoundCpumap(s.cpumap.value) && (s.ingress.Some? ==> s.ingress.value.path == CPUMAP))
              && (s.afxdp.Some? ==> SoundAfXdp(s.afxdp.value) && (s.ingress.Some? ==> SameMeta(s.afxdp.value, s.ingress.value)))
              && (s.udp.Some? ==> SoundUdp(s.udp.value) && (s.ingress.Some? ==> SameStamp(s.udp.value, s.ingress.value)))
              && !(s.afxdp.Some? && s.udp.Some?)
  {
    if s.ingress.Some? {
      IngressSoundExactly(s.ingress.value);
    }
    if s.cpumap.Some? {
      CpumapSoundExactly(s.cpumap.value);
    }
    if s.afxdp.Some? {
      AfXdpSoundExactly(s.afxdp.value);
    }
    if s.udp.Some? {
      UdpSoundExactly(s.udp.value);
    }
  }

  /** What the user side contributes: the timestamp of the one receiver that saw the packet. */
  predicate UserSaw(s: Sources, user: Option<int>) {
    || (s.afxdp.Some? && s.udp.None? && user == Some(s.afxdp.value.userMono))
    || (s.udp.Some? && s.afxdp.None? && user == Some(s.udp.value.userMono))
  }

  /** The delays of a packet with these five times, by path. */
  predicate DelaysAre(d: Delays, path: int, hw: int, xdp: int, cpumap: int, user: int) {
    && d.d1 == Some(xdp - hw) && d.total == Some(user - hw)
    && (if path == CPUMAP then d.d2 == Some(cpumap - xdp) && d.d3 == Some(user - cpumap)
        else (path == PASS || path == XSK) && d.d2 == Some(0) && d.d3 == Some(user - xdp))
  }

  function OffsetOf(points: seq<Point>, t: int, clamp: bool): int
    requires points != [] && Increasing(points)
  {
    var o := LookupAt(points, t, clamp).offset;
    if o.Some? then o.value else 0
  }

  /** A complete row of a packet the ingress map knows with a hardware time: the wire time is
      that hardware time, converted at the recorded XDP time. */
  lemma RowFromIngress(s: Sources, points: seq<Point>, clamp: bool)
    requires points != [] && Increasing(points) && JoinedRow(s, points, clamp).status == Complete
    requires s.ingress.Some? && HwtsValid(s.ingress.value.flags)
    ensures var i := s.ingress.value;
            && LookupAt(points, i.initialXdp, clamp).offset.Some?
            && (i.path == CPUMAP ==> s.cpumap.Some?)
            && UserSaw(s, UserMono(s))
            && DelaysAre(DelaysOf(s, points, clamp), i.path, i.hw - OffsetOf(points, i.initialXdp, clamp), i.initialXdp,
                         if s.cpumap.Some? then s.cpumap.value.cpumapTime else 0, UserMono(s).value)
  {
    CompleteRowIsOrdered(s, points, clamp);
  }

  /** The ingress record has no hardware time, but the UDP receiver has one. */
  lemma RowWithUdpTime(s: Sources, points: seq<Point>, clamp: bool)
    requires points != [] && Increasing(points) && JoinedRow(s, points, clamp).status == Complete
    requires s.ingress.Some? && !HwtsValid(s.ingress.value.flags)
    ensures s.udp.Some? && HwtsValid(s.udp.value.flags) && s.afxdp.None?
    ensures var i, u := s.ingress.value, s.udp.value;
            && LookupAt(points, i.initialXdp, clamp).offset.Some?
            && (i.path == CPUMAP ==> s.cpumap.Some?)
            && DelaysAre(DelaysOf(s, points, clamp), i.path, u.hw - OffsetOf(points, i.initialXdp, clamp), i.initialXdp,
                         if s.cpumap.Some? then s.cpumap.value.cpumapTime else 0, u.userMono)
  {
    CompleteRowIsOrdered(s, points, clamp);
  }

  /** A packet only the AF_XDP receiver knows: everything comes from its copy of the metadata. */
  lemma RowFromAfXdp(s: Sources, points: seq<Point>, clamp: bool)
    requires points != [] && Increasing(points) && JoinedRow(s, points, clamp).status == Complete && s.ingress.None?
    ensures s.afxdp.Some? && s.udp.None? && s.afxdp.value.path == XSK && HwtsValid(s.afxdp.value.flags)
    ensures var a := s.afxdp.value;
            && LookupAt(points, a.initialXdp, clamp).offset.Some?
            && DelaysAre(DelaysOf(s, points, clamp), XSK, a.hw - OffsetOf(points, a.initialXdp, clamp), a.initialXdp, 0, a.userMono)
  {
    CompleteRowIsOrdered(s, points, clamp);
  }

  /** A packet only the UDP receiver knows has a total, converted at the user time, and no
      segments. */
  lemma RowFromUdp(s: Sources, points: seq<Point>, clamp: bool)
    requires points != [] && Increasing(points) && s.ingress.None? && s.cpumap.None? && s.afxdp.None? && s.udp.Some?
    ensures var d, u := DelaysOf(s, points, clamp), s.udp.value;
            && d.d1.None? && d.d2.None? && d.d3.None? && JoinedRow(s, points, clamp).status != Complete
            && (d.total.Some? <==> UdpValid(s) && HwtsValid(u.flags) && LookupAt(points, u.userMono, clamp).offset.Some?)
            && (d.total.Some? ==> d.total.value == u.userMono - (u.hw - OffsetOf(points, u.userMono, clamp)))
  {
  }

  /** The one receiver that saw the packet is to be believed. */
  ghost predicate TrustedUser(s: Sources) {
    if s.afxdp.Some? then
      && s.udp.None? && SoundAfXdp(s.afxdp.value)
      && (s.ingress.Some? ==> SameMeta(s.afxdp.value, s.ingress.value))
    else
      && s.udp.Some? && SoundUdp(s.udp.value)
      && (s.ingress.Some? ==>
            && s.ingress.value.path != XSK
            && (SoundIngress(s.ingress.value) ==> SameStamp(s.udp.value, s.ingress.value)))
  }

  /** What is taken from every combination of records, sound or not, and when: a time is used
      exactly if its record can be believed, and nothing stands in for one that cannot. */
  lemma TrustedTimes(s: Sources)
    ensures InitialXdp(s) ==
              if s.ingress.Some? then (if UsableIngress(s.ingress.value) then Some(s.ingress.value.initialXdp) else None)
              else if s.afxdp.Some? && SoundAfXdp(s.afxdp.value) then Some(s.afxdp.value.initialXdp) else None
    ensures XdpHw(s) ==
              if s.ingress.Some? then (if SoundIngress(s.ingress.value) && s.ingress.value.hw > 0 then Some(s.ingress.value.hw) else None)
              else if s.afxdp.Some? && SoundAfXdp(s.afxdp.value) && s.afxdp.value.hw > 0 then Some(s.afxdp.value.hw) else None
    ensures CpumapValid(s) <==>
              && s.cpumap.Some? && SoundCpumap(s.cpumap.value) && 0 < s.cpumap.value.cpumapTime <= U64_MAX
              && (s.ingress.Some? ==> UsableIngress(s.ingress.value) && s.ingress.value.path == CPUMAP)
    ensures UserValid(s) <==> TrustedUser(s)
    ensures UserValid(s) ==> UserMono(s) == Some(if s.afxdp.Some? then s.afxdp.value.userMono else s.udp.value.userMono)
    ensures UserValid(s) && XdpHw(s).None? ==> UserHw(s) == if s.udp.Some? && s.udp.value.hw > 0 then Some(s.udp.value.hw) else None
  {
    if s.ingress.Some? {
      UsableExactly(s.ingress.value);
      IngressSoundExactly(s.ingress.value);
    }
    if s.cpumap.Some? {
      CpumapSoundExactly(s.cpumap.value);
    }
    if s.afxdp.Some? {
      AfXdpSoundExactly(s.afxdp.value);
    }
    if s.udp.Some? {
      UdpSoundExactly(s.udp.value);
    }
  }

  // The times of a packet against which nothing is held, straight from its records.

  function SeenXdp(s: Sources): Option<int> {
    if s.ingress.Some? then Some(s.ingress.value.initialXdp) else if s.afxdp.Some? then Some(s.afxdp.value.initialXdp) else None
  }

  function SeenWire(s: Sources): Option<int> {
    if s.ingress.Some? && s.ingress.value.hw > 0 then Some(s.ingress.value.hw)
    else if s.ingress.None? && s.afxdp.Some? && s.afxdp.value.hw > 0 then Some(s.afxdp.value.hw)
    else if s.udp.Some? && s.udp.value.hw > 0 then Some(s.udp.value.hw) else None
  }

  function SeenUser(s: Sources): Option<int> {
    if s.afxdp.Some? then Some(s.afxdp.value.userMono) else if s.udp.Some? then Some(s.udp.value.userMono) else None
  }

  function SeenCpumap(s: Sources): Option<int> {
    if s.cpumap.Some? && 0 < s.cpumap.value.cpumapTime <= U64_MAX then Some(s.cpumap.value.cpumapTime) else None
  }

  /** The delays of every such packet, complete or not, are the differences of those times, the
      wire time converted at the XDP time, or at the user time if there is none. */
  lemma ConsistentDelays(s: Sources, points: seq<Point>, clamp: bool)
    requires points != [] && Increasing(points) && !Inconsistent(s)
    ensures var at := if SeenXdp(s).Some? then SeenXdp(s) else SeenUser(s);
            var offset := if at.Some? then LookupAt(points, at.value, clamp).offset else None;
            var hw := Minus(SeenWire(s), offset);
            var d := DelaysOf(s, points, clamp);
            && d.d1 == Minus(SeenXdp(s), hw) && d.total == Minus(SeenUser(s), hw)
            && (RequestedPath(s) == Some(CPUMAP) ==> d.d2 == Minus(SeenCpumap(s), SeenXdp(s)) && d.d3 == Minus(SeenUser(s), SeenCpumap(s)))
            && (RequestedPath(s) in {Some(PASS), Some(XSK)} ==> d.d2 == Some(0) && d.d3 == Minus(SeenUser(s), SeenXdp(s)))
            && (RequestedPath(s).None? ==> d.d2.None? && d.d3.None?)
    ensures RequestedPath(s).Some? ==> RequestedPath(s).value in {PASS, CPUMAP, XSK}
    ensures RequestedPath(s) ==
              if s.ingress.Some? then Some(s.ingress.value.path)
              else if s.afxdp.Some? then Some(XSK) else if s.cpumap.Some? then Some(CPUMAP) else None
  {
    ConsistentExactly(s);
  }

  /** Completeness, exactly: nothing contradicts, all segments are there, none is negative. */
  lemma CompleteExactly(s: Sources, points: seq<Point>, clamp: bool)
    requires points != [] && Increasing(points)
    ensures var d := DelaysOf(s, points, clamp);
            JoinedRow(s, points, clamp).status == Complete <==>
              !Inconsistent(s) && d.d1.Some? && d.d2.Some? && d.d3.Some? && d.d1.value >= 0 && d.d2.value >= 0 && d.d3.value >= 0
  {
    ResidualIsZero(s, points, clamp);
    var d := DelaysOf(s, points, clamp);
    if d.d1.Some? && d.d2.Some? && d.d3.Some? {
      assert Residual(d).Some? && Residual(d).value == 0;
    }
  }

  // ----- the full outer join

  datatype Key = Key(flow: int, sequence: int)

  predicate Less(a: Key, b: Key) { a.flow < b.flow || (a.flow == b.flow && a.sequence < b.sequence) }

  /** Keys are ordered by flow, then by sequence. */
  lemma LessIsLexicographic(a: Key, b: Key)
    ensures a.flow < b.flow ==> Less(a, b) && !Less(b, a)
    ensures a.flow == b.flow ==> (Less(a, b) <==> a.sequence < b.sequence)
    ensures a == b || Less(a, b) || Less(b, a)
  {
  }

  function Get<T>(m: map<Key, T>, k: Key): Option<T> { if k in m then Some(m[k]) else None }

  datatype Tables = Tables(ingress: map<Key, Ingress>, cpumap: map<Key, CpumapRecord>, afxdp: map<Key, AfXdp>, udp: map<Key, Udp>)

  function SourcesOf(t: Tables, k: Key): Sources {
    Sources(Get(t.ingress, k), Get(t.cpumap, k), Get(t.afxdp, k), Get(t.udp, k))
  }

  function KeysOf(t: Tables): set<Key> {
    t.ingress.Keys + t.cpumap.Keys + t.afxdp.Keys + t.udp.Keys
  }

  lemma {:induction false} SmallestKey(keys: set<Key>) returns (k: Key)
    requires keys != {}
    ensures k in keys && forall x | x in keys && x != k :: Less(k, x)
    decreases |keys|
  {
    var some :| some in keys;
    var rest := keys - {some};
    assert forall x | x in keys :: x == some || x in rest;
    if rest == {} {
      k := some;
    } else {
      var least := SmallestKey(rest);
      k := if Less(some, least) then some else least;
      forall x | x in keys && x != k
        ensures Less(k, x)
      {
        assert x == some || x == least || (x in rest && Less(least, x));
      }
    }
  }

  /** sorted(keys). */
  method SortKeys(all: set<Key>) returns (keys: seq<Key>)
    ensures |keys| == |all|
    ensures forall i, j | 0 <= i < j < |keys| :: Less(keys[i], keys[j])
    ensures forall k :: k in keys <==> k in all
  {
    keys := [];
    var left := all;
    while left != {}
      invariant |keys| + |left| == |all|
      invariant forall i, j | 0 <= i < j < |keys| :: Less(keys[i], keys[j])
      invariant forall i, k | 0 <= i < |keys| && k in left :: Less(keys[i], k)
      invariant forall k :: k in keys || k in left <==> k in all
      decreases |left|
    {
      ghost var least := SmallestKey(left);
      var k :| k in left && forall x | x in left && x != k :: Less(k, x);
      keys, left := keys + [k], left - {k};
    }
  }

  /** The rows of a list of keys. */
  function RowsOf(t: Tables, keys: seq<Key>, points: seq<Point>, clamp: bool): (rows: seq<Row>)
    requires points != [] && Increasing(points)
    ensures |rows| == |keys|
  {
    seq(|keys|, i requires 0 <= i < |keys| => JoinedRow(SourcesOf(t, keys[i]), points, clamp))
  }

  /** Exactly what the table has under the key. */
  predicate KnownAs<T(==)>(known: Option<T>, table: map<Key, T>, k: Key) {
    (known.Some? <==> k in table) && (known.Some? ==> known.value == table[k])
  }

  /** A row is made from everything the tables know about its key, and nothing else. */
  lemma SourcesMean(t: Tables, k: Key)
    ensures var s := SourcesOf(t, k);
            KnownAs(s.ingress, t.ingress, k) && KnownAs(s.cpumap, t.cpumap, k) && KnownAs(s.afxdp, t.afxdp, k) && KnownAs(s.udp, t.udp, k)
  {
  }

  /** The key loop of analyze: every key that any source knows gets exactly one row, made
      from everything the sources know about it, in key order. */
  method JoinAll(t: Tables, points: seq<Point>, clamp: bool) returns (keys: seq<Key>, rows: seq<Row>)
    requires points != [] && Increasing(points)
    ensures |keys| == |KeysOf(t)| && rows == RowsOf(t, keys, points, clamp)
    ensures forall i, j | 0 <= i < j < |keys| :: Less(keys[i], keys[j])
    ensures forall k :: k in keys <==> k in t.ingress || k in t.cpumap || k in t.afxdp || k in t.udp
  {
    keys := SortKeys(KeysOf(t));
    rows := JoinKeys(t, keys, points, clamp);
  }

  method JoinKeys(t: Tables, keys: seq<Key>, points: seq<Point>, clamp: bool) returns (rows: seq<Row>)
    requires points != [] && Increasing(points)
    ensures rows == RowsOf(t, keys, points, clamp)
  {
    rows := [];
    for i := 0 to |keys|
      invariant rows == RowsOf(t, keys[..i], points, clamp)
    {
      rows := rows + [JoinedRow(SourcesOf(t, keys[i]), points, clamp)];
      assert keys[..i + 1] == keys[..i] + [keys[i]];
    }
    assert keys[..|keys|] == keys;
  }
}
