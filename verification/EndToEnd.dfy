/** One packet from the classifier to the joined row: what the XDP programs and the receivers
    record about it is believed by the offline join and decomposes as it happened. */
module EndToEnd {
  import opened Wrappers
  import P = Packets
  import X = XdpAccounting
  import F = FrameLedger
  import C = Calibration
  import J = JoinRow

  // ----- the records as the join reads them

  function PathCode(path: P.Path): int {
    match path
    case Pass => J.PASS
    case Cpumap => J.CPUMAP
    case Xsk => J.XSK
  }

  /** An ingress record; its packet identity and its path are always marked. */
  function IngressOf(r: X.IngressRecord): J.Ingress {
    J.Ingress(J.FlagWord(r.hwtsValid, true, false, r.errorCode != 0, true), PathCode(r.path), r.queue, r.hwTime, r.initialTime, r.errorCode)
  }

  /** A record of the measuring CPU, made from metadata `m`. */
  function CpumapOf(r: X.CpumapRecord, m: X.Meta): J.CpumapRecord {
    J.CpumapRecord(J.FlagWord(m.hwtsValid, m.idValid, true, m.timestampError, m.pathRequested), PathCode(r.path), r.cpumapTime)
  }

  /** A record of the AF_XDP receiver that kept its metadata. */
  function AfXdpOf(r: F.Record): J.AfXdp
    requires r.meta.Some?
  {
    var m := r.meta.value;
    J.AfXdp(J.FlagWord(m.hwtsValid, m.idValid, m.cpumapSeen, m.timestampError, m.pathRequested),
            One(r.metaValid) + 2 * One(r.keyMatch) + 4 * One(r.pathMatch),
            PathCode(m.path), r.queue, m.hwTime, m.initialTime, m.errorCode, r.clocks.mono)
  }

  // ----- what the classifier writes is believed

  /** Clock values as the kernel gives them. */
  predicate PlausibleArrival(a: X.Arrival) {
    && 0 < a.now <= J.U64_MAX
    && match a.timestamp
       case Stamp(ns) => 0 < ns <= J.U64_MAX
       case StampError(code) => code != 0 && -0x8000 <= code <= 0x7FFF
  }

  /** What an ingress record of arrival `a` says. */
  predicate RecordsArrival(r: X.IngressRecord, a: X.Arrival, path: P.Path) {
    && r.queue == a.queue && r.initialTime == a.now && r.path == path
    && (r.hwtsValid <==> a.timestamp.Stamp?)
    && r.hwTime == (if a.timestamp.Stamp? then a.timestamp.ns else 0)
    && r.errorCode == (if a.timestamp.StampError? then a.timestamp.code else 0)
  }

  lemma ClassifierRecordsArrival(p: P.Parsed, b: X.Books, c: X.Books, a: X.Arrival, mode: X.Mode, capacity: nat, o: X.Outcome)
    requires X.Dispatched(p, b, c, a, mode, o) && o == X.OutcomeOf(p, a, b, mode, capacity) && o.Measured? && o.ingress == X.Recorded
    ensures p.key in c.ingress && RecordsArrival(c.ingress[p.key], a, X.EffectivePath(mode, p.path))
  {
    X.IngressRecordMeans(p, b, c, a, mode, capacity, o);
  }

  /** Every ingress record is believed, with its hardware time exactly if it was stamped. */
  lemma IngressBelieved(r: X.IngressRecord, a: X.Arrival, path: P.Path)
    requires PlausibleArrival(a) && RecordsArrival(r, a, path)
    ensures var i := IngressOf(r);
            && J.IngressCore(i) && J.TimestampCoherent(i.flags, i.hw, i.tsError)
            && (J.HwtsValid(i.flags) <==> a.timestamp.Stamp?)
  {
    J.WordReads(r.hwtsValid, true, false, r.errorCode != 0, true);
  }

  /** A UDP receiver's record with its hardware stamp. */
  function UdpOf(hw: int, user: int): J.Udp { J.Udp(1, hw, user) }

  /** The times of one packet in order, the wire time converted at the XDP time. */
  predicate InOrder(points: seq<C.Point>, clamp: bool, hw: int, xdp: int, user: int)
    requires points != [] && C.Increasing(points)
  {
    C.LookupAt(points, xdp, clamp).offset.Some? && hw - J.OffsetOf(points, xdp, clamp) <= xdp <= user
  }

  /** A stamped packet for the stack, seen by the UDP receiver: its row is complete, and its
      delays are the differences of its times. */
  lemma PassRow(r: X.IngressRecord, a: X.Arrival, user: int, points: seq<C.Point>, clamp: bool)
    requires points != [] && C.Increasing(points) && PlausibleArrival(a) && a.timestamp.Stamp?
    requires RecordsArrival(r, a, P.Pass) && InOrder(points, clamp, a.timestamp.ns, a.now, user)
    ensures var s := J.Sources(Some(IngressOf(r)), None, None, Some(UdpOf(a.timestamp.ns, user)));
            && J.JoinedRow(s, points, clamp).status == J.Complete
            && J.DelaysAre(J.DelaysOf(s, points, clamp), J.PASS, a.timestamp.ns - J.OffsetOf(points, a.now, clamp), a.now, 0, user)
  {
    var s := J.Sources(Some(IngressOf(r)), None, None, Some(UdpOf(a.timestamp.ns, user)));
    IngressBelieved(r, a, P.Pass);
    J.UdpFlagBits(1, 0, 0, 1);
    assert !J.Inconsistent(s) && J.UserValid(s);
    J.CompleteExactly(s, points, clamp);
  }

  /** A stamped packet measured on its way: its row has the queueing delay in the middle. */
  lemma CpumapRow(r: X.IngressRecord, q: X.CpumapRecord, m: X.Meta, a: X.Arrival, user: int, points: seq<C.Point>, clamp: bool)
    requires points != [] && C.Increasing(points) && PlausibleArrival(a) && a.timestamp.Stamp?
    requires RecordsArrival(r, a, P.Cpumap) && InOrder(points, clamp, a.timestamp.ns, a.now, user)
    requires X.WellMarked(m) && m.pathRequested && q.path == m.path && a.now <= q.cpumapTime <= user && q.cpumapTime <= J.U64_MAX
    ensures var s := J.Sources(Some(IngressOf(r)), Some(CpumapOf(q, m)), None, Some(UdpOf(a.timestamp.ns, user)));
            && J.JoinedRow(s, points, clamp).status == J.Complete
            && J.DelaysAre(J.DelaysOf(s, points, clamp), J.CPUMAP, a.timestamp.ns - J.OffsetOf(points, a.now, clamp), a.now, q.cpumapTime, user)
  {
    var s := J.Sources(Some(IngressOf(r)), Some(CpumapOf(q, m)), None, Some(UdpOf(a.timestamp.ns, user)));
    IngressBelieved(r, a, P.Cpumap);
    J.UdpFlagBits(1, 0, 0, 1);
    J.WordReads(m.hwtsValid, m.idValid, true, m.timestampError, m.pathRequested);
    assert J.CpumapValid(s);
    assert !J.Inconsistent(s) && J.UserValid(s);
    J.CompleteExactly(s, points, clamp);
  }

  /** A stamped packet for the AF_XDP socket of its queue, with the metadata the classifier put
      in front of it. */
  lemma XskRow(r: X.IngressRecord, a: X.Arrival, h: P.Header, clocks: F.Clocks, d: F.Desc, points: seq<C.Point>, clamp: bool)
    requires points != [] && C.Increasing(points) && PlausibleArrival(a) && a.timestamp.Stamp? && F.MetaRoom(d)
    requires RecordsArrival(r, a, P.Xsk) && InOrder(points, clamp, a.timestamp.ns, a.now, clocks.mono)
    ensures F.RecordOf(h, a.queue, clocks, d, X.MetaFor(a, h.key, P.Xsk)).meta.Some?
    ensures var u := F.RecordOf(h, a.queue, clocks, d, X.MetaFor(a, h.key, P.Xsk));
            var s := J.Sources(Some(IngressOf(r)), None, Some(AfXdpOf(u)), None);
            && J.JoinedRow(s, points, clamp).status == J.Complete
            && J.DelaysAre(J.DelaysOf(s, points, clamp), J.XSK, a.timestamp.ns - J.OffsetOf(points, a.now, clamp), a.now, 0, clocks.mono)
  {
    var m := X.MetaFor(a, h.key, P.Xsk);
    var u := F.RecordOf(h, a.queue, clocks, d, m);
    F.OnlyOwnMetadata(h, a.queue, clocks, d, m);
    var s := J.Sources(Some(IngressOf(r)), None, Some(AfXdpOf(u)), None);
    IngressBelieved(r, a, P.Xsk);
    J.WordReads(true, true, false, false, true);
    assert J.AfXdpConsistent(s);
    assert !J.Inconsistent(s) && J.UserValid(s);
    J.CompleteExactly(s, points, clamp);
  }
}
