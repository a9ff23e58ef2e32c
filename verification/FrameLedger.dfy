/** UMEM frame ownership in the AF_XDP receiver: the ledger, the FILL and RX rings, and
    receive_batch with its rollback paths (BPF/afxdp_recv.c).

    The kernel takes an address from FILL, writes a packet into that frame and posts a
    descriptor on RX; it does nothing else with addresses. */
module FrameLedger {
  import opened Wrappers
  import opened Packets
  import X = XdpAccounting

  const NUM_FRAMES := 4096
  const FRAME_SIZE := 4096
  const UMEM_SIZE := 0x100_0000
  const RX_BATCH_SIZE := 64
  const OFFSET_UNIT := 0x1_0000_0000_0000

  datatype Desc = Desc(addr: nat, len: nat, options: nat)

  datatype Error = NotSupported | OutOfRange | Unclean | NoSpace | ClockError

  datatype Result<T> = Ok(value: T) | Err(error: Error)

  // ----- one descriptor

  /** The lower 48 bits of a descriptor address name the buffer, the upper 16 an offset. */
  function BaseOf(d: Desc): nat { d.addr % OFFSET_UNIT }

  function DataOf(d: Desc): nat { d.addr % OFFSET_UNIT + d.addr / OFFSET_UNIT }

  function ChunkOf(addr: nat): nat { addr - addr % FRAME_SIZE }

  function FrameOf(addr: nat): nat { addr / FRAME_SIZE }

  /** A descriptor is accepted exactly when its packet is a nonempty part of one frame and
      it is not a fragment of a packet; the answer is that frame's first address. */
  function ValidateDescriptor(d: Desc): (r: Result<nat>)
    ensures r.Ok? <==> d.options == 0 && 0 < d.len && BaseOf(d) < UMEM_SIZE
                       && ChunkOf(BaseOf(d)) <= DataOf(d) && DataOf(d) + d.len <= ChunkOf(BaseOf(d)) + FRAME_SIZE
    ensures r.Ok? ==> r.value == FrameOf(BaseOf(d)) * FRAME_SIZE && FrameOf(r.value) == FrameOf(BaseOf(d)) < NUM_FRAMES
    ensures r.Err? ==> r.error == if d.options != 0 then NotSupported else OutOfRange
  {
    var base, data := BaseOf(d), DataOf(d);
    if d.options != 0 then Err(NotSupported)
    else if base >= UMEM_SIZE || data >= UMEM_SIZE || d.len == 0 || d.len > UMEM_SIZE - data then Err(OutOfRange)
    else
      var start := ChunkOf(base);
      var end := start + FRAME_SIZE;
      if data < start || data >= end || d.len > end - data then Err(OutOfRange)
      else Ok(start)
  }

  // ----- the contents of the rings, as frame numbers

  function Frames(addrs: seq<nat>): (fs: seq<nat>)
    ensures |fs| == |addrs|
  {
    seq(|addrs|, i requires 0 <= i < |addrs| => FrameOf(addrs[i]))
  }

  function RxFrames(rx: seq<Desc>): (fs: seq<nat>)
    ensures |fs| == |rx|
  {
    seq(|rx|, i requires 0 <= i < |rx| => FrameOf(BaseOf(rx[i])))
  }

  /** How many descriptors one batch takes. */
  function BatchSize(rx: seq<Desc>): (n: nat)
    ensures n <= |rx|
  {
    if |rx| < RX_BATCH_SIZE then |rx| else RX_BATCH_SIZE
  }

  ghost predicate Distinct(fs: seq<nat>) {
    forall i, j | 0 <= i < j < |fs| :: fs[i] != fs[j]
  }

  /** The ledger that says of `entry` what is left after taking the frames `fs`. */
  ghost predicate LedgerWithout(now: seq<bool>, entry: seq<bool>, fs: seq<nat>) {
    |now| == |entry| && forall f | 0 <= f < |now| :: now[f] <==> entry[f] && f !in fs
  }

  /** The frames a batch takes: distinct, in the kernel, and inside the UMEM. */
  ghost predicate Takeable(fs: seq<nat>, entry: seq<bool>) {
    Distinct(fs) && forall i | 0 <= i < |fs| :: fs[i] < |entry| && entry[fs[i]]
  }

  /** The two clocks as read for a packet. */
  datatype Clocks = Clocks(mono: nat, wall: int)

  /** A packet as it lies in its frame, the metadata in front of it (whoever wrote that), and
      the clocks if they could be read. */
  datatype Packet = Packet(octets: seq<Octet>, front: X.Meta, clocks: Option<Clocks>)

  /** What is kept of an experiment packet.  The three marks say how far its metadata could be
      believed; only with all of them is it kept. */
  datatype Record = Record(
    header: Header, queue: nat, clocks: Clocks, length: nat,
    metaValid: bool, keyMatch: bool, pathMatch: bool, meta: Option<X.Meta>)

  /** There is room for metadata between the start of the frame and the packet. */
  predicate MetaRoom(d: Desc) {
    var data := DataOf(d);
    X.META_SIZE <= data && ChunkOf(data) <= data - X.META_SIZE <= UMEM_SIZE - X.META_SIZE
  }

  predicate MetaMarked(m: X.Meta) {
    m.magic == X.META_MAGIC && m.version == X.META_VERSION && m.size == X.META_SIZE && m.idValid
  }

  /** The record of a packet, with read_xdp_metadata. */
  function RecordOf(h: Header, queue: nat, clocks: Clocks, d: Desc, front: X.Meta): (r: Record)
    ensures r.meta.Some? <==> r.metaValid && r.keyMatch && r.pathMatch
  {
    if !MetaRoom(d) || !MetaMarked(front) then Record(h, queue, clocks, d.len, false, false, false, None)
    else
      var key, path := front.key == h.key, front.path == Xsk;
      Record(h, queue, clocks, d.len, true, key, path, if key && path then Some(front) else None)
  }

  /** A record has metadata exactly if there is some, marked and complete, for this very packet
      and path: what an earlier packet left in the frame is never taken for it. */
  lemma OnlyOwnMetadata(h: Header, queue: nat, clocks: Clocks, d: Desc, front: X.Meta)
    ensures var r := RecordOf(h, queue, clocks, d, front);
            && r.header == h && r.queue == queue && r.clocks == clocks && r.length == d.len
            && (r.metaValid <==>
                  && DataOf(d) % FRAME_SIZE >= X.META_SIZE && DataOf(d) <= UMEM_SIZE
                  && front.magic == X.META_MAGIC && front.version == X.META_VERSION && front.size == X.META_SIZE && front.idValid)
            && (r.keyMatch <==> r.metaValid && front.key == h.key) && (r.pathMatch <==> r.metaValid && front.path == Xsk)
            && (r.meta.Some? <==> r.metaValid && r.keyMatch && r.pathMatch)
            && (r.meta.Some? ==> r.meta.value == front)
  {
  }

  /** What the classifier wrote in front of a packet it sent to this socket is in the record of
      that packet. */
  lemma ClassifierMetadataKept(p: Packet, a: X.Arrival, mode: X.Mode, queue: nat, d: Desc)
    requires ParseXdp(p.octets).Experiment? && p.clocks.Some? && MetaRoom(d)
    requires X.EffectivePath(mode, ParseXdp(p.octets).path) == Xsk
    requires p.front == X.MetaFor(a, ParseXdp(p.octets).key, Xsk)
    ensures HeaderOf(p).Some?
    ensures var r := RecordOf(HeaderOf(p).value, queue, p.clocks.value, d, p.front);
            r.meta == Some(p.front) && r.meta.value.initialTime == a.now && r.meta.value.key == r.header.key
  {
    ParsersAgree(p.octets);
  }

  datatype Counters = Counters(
    received: int, malformed: int, udp: int, unexpectedPort: int, experiment: int, overflow: int, metaInvalid: int, recycled: int, invariantErrors: int)

  /** `pending` packets have been received whose frames are not recycled yet. */
  predicate CountersOk(c: Counters, records: nat, pending: int) {
    && 0 <= c.malformed && 0 <= c.unexpectedPort && 0 <= c.overflow && 0 <= c.metaInvalid <= records
    && c.malformed + c.udp <= c.received == c.recycled + pending
    && c.unexpectedPort + c.experiment <= c.udp
    && c.experiment == records + c.overflow
  }

  class Receiver {
    const inKernel: array<bool>
    const recordCapacity: nat
    const queue: nat
    var owned: nat
    var rx: seq<Desc>
    var fill: seq<nat>
    var counters: Counters
    var records: seq<Record>

    ghost predicate Valid()
      reads this, inKernel
    {
      && inKernel.Length == NUM_FRAMES && owned == 0
      && |records| <= recordCapacity && CountersOk(counters, |records|, 0)
    }

    constructor (recordCapacity: nat, queue: nat)
      ensures Valid() && fresh(inKernel) && this.recordCapacity == recordCapacity && this.queue == queue
      ensures rx == [] && fill == [] && records == [] && counters == Counters(0, 0, 0, 0, 0, 0, 0, 0, 0)
    {
      inKernel := new bool[NUM_FRAMES](_ => false);
      this.recordCapacity, this.queue := recordCapacity, queue;
      owned, rx, fill, records, counters := 0, [], [], [], Counters(0, 0, 0, 0, 0, 0, 0, 0, 0);
    }

    /** Submits every frame once. */
    method FillInitialFrames() returns (r: Result<nat>)
      requires Valid()
      modifies inKernel, this`fill
      ensures Valid()
      ensures r == if old(fill) == [] then Ok(NUM_FRAMES) else Err(NoSpace)
      ensures r.Ok? ==> Frames(fill) == AllFrames() && forall f | 0 <= f < NUM_FRAMES :: inKernel[f]
      ensures r.Err? ==> fill == old(fill) && inKernel[..] == old(inKernel[..])
    {
      if NUM_FRAMES - |fill| != NUM_FRAMES {
        return Err(NoSpace);
      }
      var slots: seq<nat> := [];
      for i := 0 to NUM_FRAMES
        invariant |slots| == i && forall j | 0 <= j < i :: slots[j] == j * FRAME_SIZE
      {
        slots := slots + [i * FRAME_SIZE];
      }
      fill := slots;
      forall f | 0 <= f < NUM_FRAMES {
        inKernel[f] := true;
      }
      assert Frames(fill) == AllFrames();
      return Ok(NUM_FRAMES);
    }

    /** Gives frames back to the ledger. */
    method Rollback(addrs: seq<nat>, ghost entry: seq<bool>)
      requires inKernel.Length == NUM_FRAMES && owned == |addrs|
      requires LedgerWithout(inKernel[..], entry, Frames(addrs)) && Takeable(Frames(addrs), entry)
      modifies inKernel, this`owned
      ensures inKernel[..] == entry && owned == 0
    {
      for j := 0 to |addrs|
        invariant owned == |addrs| - j
        invariant LedgerWithout(inKernel[..], entry, Frames(addrs[j..]))
      {
        var frame := FrameOf(addrs[j]);
        assert Frames(addrs)[j] == frame;
        RestFrames(addrs, j);
        inKernel[frame] := true;
        owned := owned - 1;
      }
    }

    /** The validating loop: it takes every frame of the batch or none. */
    method TakeBatch(n: nat) returns (r: Result<seq<nat>>)
      requires Valid() && n <= |rx|
      modifies inKernel, this`owned, this`counters
      ensures r.Ok? ==> |r.value| == n == owned && Frames(r.value) == RxFrames(rx[..n]) && counters == old(counters)
                        && LedgerWithout(inKernel[..], old(inKernel[..]), Frames(r.value)) && Takeable(Frames(r.value), old(inKernel[..]))
                        && forall i | 0 <= i < n :: r.value[i] % FRAME_SIZE == 0
      ensures r.Err? ==> FailsWith(rx[..n], old(inKernel[..]), r.error) && owned == 0 && inKernel[..] == old(inKernel[..])
                         && counters == if r.error == Unclean then old(counters).(invariantErrors := old(counters).invariantErrors + 1) else old(counters)
      ensures r.Ok? <==> (forall i | 0 <= i < n :: ValidateDescriptor(rx[i]).Ok?) && Takeable(RxFrames(rx[..n]), old(inKernel[..]))
    {
      ghost var entry := inKernel[..];
      var addrs: seq<nat> := [];
      for i := 0 to n
        invariant |addrs| == i == owned && counters == old(counters)
        invariant Frames(addrs) == RxFrames(rx[..i])
        invariant LedgerWithout(inKernel[..], entry, Frames(addrs)) && Takeable(Frames(addrs), entry)
        invariant forall j | 0 <= j < i :: addrs[j] % FRAME_SIZE == 0 && ValidateDescriptor(rx[j]).Ok?
      {
        assert rx[..n][..i] == rx[..i] && rx[..n][i] == rx[i];
        var v := ValidateDescriptor(rx[i]);
        if v.Err? {
          UnsoundFails(rx[..n], entry, i);
          Rollback(addrs, entry);
          return Err(v.error);
        }
        var frame := FrameOf(v.value);
        assert RxFrames(rx[..i + 1]) == RxFrames(rx[..i]) + [frame];
        if frame >= NUM_FRAMES || !inKernel[frame] {
          UntakenFails(rx[..n], entry, i);
          Rollback(addrs, entry);
          counters := counters.(invariantErrors := counters.invariantErrors + 1);
          return Err(Unclean);
        }
        inKernel[frame] := false;
        owned := owned + 1;
        assert Frames(addrs + [v.value]) == Frames(addrs) + [frame];
        addrs := addrs + [v.value];
      }
      return Ok(addrs);
    }

    /** Sorts one packet, writes its record if there is room, and reports the first thing
        that went wrong with it. */
    method HandlePacket(d: Desc, p: Packet) returns (e: Option<Error>)
      requires |records| <= recordCapacity
      modifies this`counters, this`records
      ensures Handled(old(counters), counters, p, if |records| > |old(records)| then Some(records[|records| - 1]) else None)
      ensures records == if p.clocks.Some? && HeaderOf(p).Some? && |old(records)| < recordCapacity
                         then old(records) + [RecordOf(HeaderOf(p).value, queue, p.clocks.value, d, p.front)] else old(records)
      ensures e == if p.clocks.None? then Some(ClockError)
                   else if HeaderOf(p).Some? && |old(records)| == recordCapacity then Some(NoSpace) else None
    {
      counters := counters.(received := counters.received + 1);
      if p.clocks.None? {
        return Some(ClockError);
      }
      var info := PacketUdpInfo(p.octets);
      if info.None? {
        counters := counters.(malformed := counters.malformed + 1);
        return None;
      }
      counters := counters.(udp := counters.udp + 1);
      if info.value.port != XSK_PORT {
        counters := counters.(unexpectedPort := counters.unexpectedPort + 1);
        return None;
      }
      var id := ExperimentId(p.octets, info.value);
      if id.None? {
        return None;
      }
      counters := counters.(experiment := counters.experiment + 1);
      if |records| >= recordCapacity {
        counters := counters.(overflow := counters.overflow + 1);
        return Some(NoSpace);
      }
      var record := RecordOf(id.value, queue, p.clocks.value, d, p.front);
      counters := counters.(metaInvalid := counters.metaInvalid + One(record.meta.None?));
      records := records + [record];
      return None;
    }

    /** The same, as one step of a batch; `earlier` is what went wrong before. */
    method HandleInBatch(descs: seq<Desc>, packets: seq<Packet>, i: nat, earlier: Option<Error>, ghost start: Counters, ghost kept: seq<Record>)
      returns (e: Option<Error>)
      requires i < |descs| == |packets| && |kept| <= recordCapacity && CountersOk(counters, |records|, 0)
      requires records == Kept(kept, recordCapacity, queue, descs[..i], packets[..i]) && Tallied(start, counters, packets[..i], kept, records)
      requires earlier == FirstProblem(kept, recordCapacity, queue, descs[..i], packets[..i])
      modifies this`counters, this`records
      ensures records == Kept(kept, recordCapacity, queue, descs[..i + 1], packets[..i + 1])
      ensures Tallied(start, counters, packets[..i + 1], kept, records) && CountersOk(counters, |records|, 1)
      ensures counters.recycled == old(counters).recycled && counters.invariantErrors == old(counters).invariantErrors
      ensures e == FirstProblem(kept, recordCapacity, queue, descs[..i + 1], packets[..i + 1])
    {
      KeptBounds(kept, recordCapacity, queue, descs[..i], packets[..i]);
      FirstProblemStep(kept, recordCapacity, queue, descs, packets, i);
      e := HandlePacket(descs[i], packets[i]);
      e := if earlier.None? then e else earlier;
      KeptStep(kept, recordCapacity, queue, descs, packets, i);
      TalliedStep(start, old(counters), counters, packets, i, kept, old(records), records);
    }

    /** A processed frame goes back to the ledger; the checks never fire. */
    method Recycle(addrs: seq<nat>, i: nat, ghost entry: seq<bool>) returns (clean: bool)
      requires inKernel.Length == NUM_FRAMES && i < |addrs| && owned == |addrs| - i
      requires Takeable(Frames(addrs), entry) && LedgerWithout(inKernel[..], entry, Frames(addrs[i..]))
      modifies inKernel, this`owned, this`counters
      ensures clean && owned == old(owned) - 1 && LedgerWithout(inKernel[..], entry, Frames(addrs[i + 1..]))
      ensures counters == old(counters).(recycled := old(counters).recycled + 1)
    {
      var frame := FrameOf(addrs[i]);
      assert Frames(addrs)[i] == frame;
      RestFrames(addrs, i);
      clean := !inKernel[frame] && owned != 0;
      counters := counters.(invariantErrors := counters.invariantErrors + One(!clean));
      if clean {
        inKernel[frame] := true;
        owned := owned - 1;
        counters := counters.(recycled := counters.recycled + 1);
      }
    }

    /** After i packets of a batch: the ledger has i frames back, and records, counters and
        problems are those of the first i packets. */
    ghost predicate Midway(i: nat, addrs: seq<nat>, descs: seq<Desc>, packets: seq<Packet>, entry: seq<bool>,
                           start: Counters, kept: seq<Record>, e: Option<Error>)
      requires i <= |addrs| == |descs| == |packets|
      reads this, inKernel
    {
      && owned == |addrs| - i && LedgerWithout(inKernel[..], entry, Frames(addrs[i..]))
      && records == Kept(kept, recordCapacity, queue, descs[..i], packets[..i])
      && Tallied(start, counters, packets[..i], kept, records) && CountersOk(counters, |records|, 0)
      && counters.recycled == start.recycled + i && counters.invariantErrors == start.invariantErrors
      && e == FirstProblem(kept, recordCapacity, queue, descs[..i], packets[..i])
    }

    method ProcessOne(addrs: seq<nat>, descs: seq<Desc>, packets: seq<Packet>, i: nat, earlier: Option<Error>,
                      ghost entry: seq<bool>, ghost start: Counters, ghost kept: seq<Record>)
      returns (e: Option<Error>)
      requires inKernel.Length == NUM_FRAMES && i < |addrs| == |descs| == |packets| && |kept| <= recordCapacity
      requires Takeable(Frames(addrs), entry) && Midway(i, addrs, descs, packets, entry, start, kept, earlier)
      modifies inKernel, this`owned, this`counters, this`records
      ensures Midway(i + 1, addrs, descs, packets, entry, start, kept, e)
    {
      e := HandleInBatch(descs, packets, i, earlier, start, kept);
      var clean := Recycle(addrs, i, entry);
      e := if e.None? && !clean then Some(Unclean) else e;
    }

    /** The processing loop: every packet is handled in its turn, and every frame goes back to
        the ledger and into its reserved FILL slot. */
    method ProcessBatch(addrs: seq<nat>, descs: seq<Desc>, packets: seq<Packet>, ghost entry: seq<bool>) returns (e: Option<Error>, slots: seq<nat>)
      requires inKernel.Length == NUM_FRAMES && owned == |addrs| == |descs| == |packets|
      requires |records| <= recordCapacity && CountersOk(counters, |records|, 0)
      requires LedgerWithout(inKernel[..], entry, Frames(addrs)) && Takeable(Frames(addrs), entry)
      modifies inKernel, this`owned, this`counters, this`records
      ensures inKernel[..] == entry && owned == 0 && slots == addrs
      ensures records == Kept(old(records), recordCapacity, queue, descs, packets) && Tallied(old(counters), counters, packets, old(records), records)
      ensures |records| <= recordCapacity && CountersOk(counters, |records|, 0)
      ensures counters.recycled == old(counters).recycled + |addrs| && counters.invariantErrors == old(counters).invariantErrors
      ensures e == FirstProblem(old(records), recordCapacity, queue, descs, packets)
    {
      e, slots := None, [];
      assert addrs[0..] == addrs;
      for i := 0 to |addrs|
        invariant slots == addrs[..i] && Midway(i, addrs, descs, packets, entry, old(counters), old(records), e)
      {
        slots := slots + [addrs[i]];
        e := ProcessOne(addrs, descs, packets, i, e, entry, old(counters), old(records));
      }
      assert descs[..|addrs|] == descs && packets[..|addrs|] == packets;
      KeptBounds(old(records), recordCapacity, queue, descs, packets);
    }

    /** receive_batch.  `packets[i]` is what lies in the frame of the i-th descriptor.

        On every path the ledger and the owned count are as on entry.  An error before
        processing consumes nothing; otherwise the first n descriptors leave RX and exactly
        their frames, each once, are appended to FILL. */
    method ReceiveBatch(packets: seq<Packet>) returns (r: Result<nat>, ghost published: bool)
      requires Valid() && |packets| == |rx| && forall i | 0 <= i < |rx| :: |packets[i].octets| == rx[i].len
      modifies this, inKernel
      ensures Valid() && inKernel[..] == old(inKernel[..])
      ensures var n := BatchSize(old(rx));
              && (published <==> n > 0 && BatchOk(old(rx)[..n], old(inKernel[..])) && |old(fill)| + n <= NUM_FRAMES)
              && (published ==> rx == old(rx)[n..] && |fill| == |old(fill)| + n && fill[..|old(fill)|] == old(fill)
                                && Frames(fill[|old(fill)|..]) == RxFrames(old(rx)[..n]) && Distinct(Frames(fill[|old(fill)|..]))
                                && (forall i | |old(fill)| <= i < |fill| :: fill[i] % FRAME_SIZE == 0))
              && (!published ==> rx == old(rx) && fill == old(fill) && records == old(records)
                                 && counters == old(counters).(invariantErrors := counters.invariantErrors))
      ensures var n := BatchSize(old(rx));
              published ==>
                && records == Upto(old(records) + RecordsOf(queue, old(rx)[..n], packets[..n]), recordCapacity)
                && Tallied(old(counters), counters, packets[..n], old(records), records)
                && counters.recycled == old(counters).recycled + n
      ensures var n := BatchSize(old(rx));
              if published then r == Answer(n, FirstProblem(old(records), recordCapacity, queue, old(rx)[..n], packets[..n]))
              else if n == 0 then r == Ok(0)
              else r.Err? && (if BatchOk(old(rx)[..n], old(inKernel[..])) then r.error == NoSpace else FailsWith(old(rx)[..n], old(inKernel[..]), r.error))
      ensures counters.invariantErrors == old(counters).invariantErrors + if !published && r.Err? && r.error == Unclean then 1 else 0
    {
      published := false;
      var n := BatchSize(rx);
      if n == 0 {
        return Ok(0), false;
      }
      ghost var entry := inKernel[..];
      var taken := TakeBatch(n);
      if taken.Err? {
        return Err(taken.error), false;
      }
      if NUM_FRAMES - |fill| < n {
        Rollback(taken.value, entry);
        return Err(NoSpace), false;
      }
      var e, slots := ProcessBatch(taken.value, rx[..n], packets[..n], entry);
      published := true;
      KeptIsPrefix(old(records), recordCapacity, queue, rx[..n], packets[..n]);
      rx := rx[n..];
      fill := fill + slots;
      assert fill[|old(fill)|..] == slots;
      counters := counters.(invariantErrors := counters.invariantErrors + One(owned != 0));
      e := if e.None? && owned != 0 then Some(Unclean) else e;
      if e.Some? {
        return Err(e.value), true;
      }
      return Ok(n), true;
    }
  }

  /** Every descriptor is sound, and the frames are distinct and in the kernel. */
  ghost predicate BatchOk(batch: seq<Desc>, ledger: seq<bool>) {
    (forall i | 0 <= i < |batch| :: ValidateDescriptor(batch[i]).Ok?) && Takeable(RxFrames(batch), ledger)
  }

  /** The i-th descriptor is the first that stops the batch: it is unsound, or its frame is not
      in the kernel or already taken. */
  ghost predicate FailsAt(batch: seq<Desc>, ledger: seq<bool>, i: nat, e: Error) {
    && i < |batch|
    && (forall j | 0 <= j < i :: ValidateDescriptor(batch[j]).Ok?) && Takeable(RxFrames(batch)[..i], ledger)
    && match ValidateDescriptor(batch[i])
       case Err(error) => e == error
       case Ok(base) => e == Unclean && !Takeable(RxFrames(batch)[..i] + [FrameOf(base)], ledger)
  }

  ghost predicate FailsWith(batch: seq<Desc>, ledger: seq<bool>, e: Error) {
    exists i :: FailsAt(batch, ledger, i, e)
  }

  /** What the batch answers after its last packet. */
  function Answer(n: nat, problem: Option<Error>): Result<nat> {
    if problem.None? then Ok(n) else Err(problem.value)
  }

  // ----- what a batch leaves behind

  /** A packet whose record is to be kept. */
  predicate Wanted(p: Packet) { p.clocks.Some? && HeaderOf(p).Some? }

  function RecordFor(queue: nat, d: Desc, p: Packet): Record
    requires Wanted(p)
  {
    RecordOf(HeaderOf(p).value, queue, p.clocks.value, d, p.front)
  }

  /** The records of a batch, packet by packet. */
  function RecordsOf(queue: nat, descs: seq<Desc>, packets: seq<Packet>): (rs: seq<Record>)
    requires |descs| == |packets|
  {
    if packets == [] then []
    else
      var d, p := descs[|descs| - 1], packets[|packets| - 1];
      RecordsOf(queue, descs[..|descs| - 1], packets[..|packets| - 1]) + if Wanted(p) then [RecordFor(queue, d, p)] else []
  }

  /** At most the first `capacity` of them. */
  function Upto<T>(s: seq<T>, capacity: nat): (r: seq<T>) {
    if |s| <= capacity then s else s[..capacity]
  }

  /** The records after a batch, as they are written one after the other. */
  function Kept(rs: seq<Record>, capacity: nat, queue: nat, descs: seq<Desc>, packets: seq<Packet>): seq<Record>
    requires |descs| == |packets|
  {
    if packets == [] then rs
    else
      var d, p := descs[|descs| - 1], packets[|packets| - 1];
      var before := Kept(rs, capacity, queue, descs[..|descs| - 1], packets[..|packets| - 1]);
      if Wanted(p) && |before| < capacity then before + [RecordFor(queue, d, p)] else before
  }

  lemma {:induction false} KeptIsPrefix(rs: seq<Record>, capacity: nat, queue: nat, descs: seq<Desc>, packets: seq<Packet>)
    requires |descs| == |packets| && |rs| <= capacity
    ensures Kept(rs, capacity, queue, descs, packets) == Upto(rs + RecordsOf(queue, descs, packets), capacity)
    decreases |packets|
  {
    if packets == [] {
      assert rs + [] == rs;
    } else {
      var d, p := descs[|descs| - 1], packets[|packets| - 1];
      var ds, ps := descs[..|descs| - 1], packets[..|packets| - 1];
      KeptIsPrefix(rs, capacity, queue, ds, ps);
      var earlier := RecordsOf(queue, ds, ps);
      assert Wanted(p) ==> rs + (earlier + [RecordFor(queue, d, p)]) == (rs + earlier) + [RecordFor(queue, d, p)];
    }
  }

  lemma {:induction false} KeptBounds(rs: seq<Record>, capacity: nat, queue: nat, descs: seq<Desc>, packets: seq<Packet>)
    requires |descs| == |packets| && |rs| <= capacity
    ensures |rs| <= |Kept(rs, capacity, queue, descs, packets)| <= capacity
    decreases |packets|
  {
    if packets != [] {
      KeptBounds(rs, capacity, queue, descs[..|descs| - 1], packets[..|packets| - 1]);
    }
  }

  lemma KeptStep(rs: seq<Record>, capacity: nat, queue: nat, descs: seq<Desc>, packets: seq<Packet>, i: nat)
    requires i < |descs| == |packets|
    ensures var before := Kept(rs, capacity, queue, descs[..i], packets[..i]);
            Kept(rs, capacity, queue, descs[..i + 1], packets[..i + 1]) ==
            if Wanted(packets[i]) && |before| < capacity then before + [RecordFor(queue, descs[i], packets[i])] else before
  {
    assert descs[..i + 1][..i] == descs[..i] && packets[..i + 1][..i] == packets[..i];
  }

  /** What goes wrong with one packet when `count` records are there already. */
  function ProblemOf(count: nat, capacity: nat, p: Packet): Option<Error> {
    if p.clocks.None? then Some(ClockError) else if Wanted(p) && count == capacity then Some(NoSpace) else None
  }

  /** The first thing that goes wrong in a batch. */
  function FirstProblem(rs: seq<Record>, capacity: nat, queue: nat, descs: seq<Desc>, packets: seq<Packet>): Option<Error>
    requires |descs| == |packets|
  {
    if packets == [] then None
    else
      var ds, ps := descs[..|descs| - 1], packets[..|packets| - 1];
      var earlier := FirstProblem(rs, capacity, queue, ds, ps);
      if earlier.Some? then earlier else ProblemOf(|Kept(rs, capacity, queue, ds, ps)|, capacity, packets[|packets| - 1])
  }

  lemma FirstProblemStep(rs: seq<Record>, capacity: nat, queue: nat, descs: seq<Desc>, packets: seq<Packet>, i: nat)
    requires i < |descs| == |packets|
    ensures var earlier := FirstProblem(rs, capacity, queue, descs[..i], packets[..i]);
            FirstProblem(rs, capacity, queue, descs[..i + 1], packets[..i + 1]) ==
            if earlier.Some? then earlier else ProblemOf(|Kept(rs, capacity, queue, descs[..i], packets[..i])|, capacity, packets[i])
  {
    assert descs[..i + 1][..i] == descs[..i] && packets[..i + 1][..i] == packets[..i];
  }

  /** Nothing goes wrong exactly if all clocks could be read and all records fit. */
  lemma {:induction false} FirstProblemNone(rs: seq<Record>, capacity: nat, queue: nat, descs: seq<Desc>, packets: seq<Packet>)
    requires |descs| == |packets| && |rs| <= capacity
    ensures FirstProblem(rs, capacity, queue, descs, packets).None? <==>
              ClocksRead(packets) && |rs| + |RecordsOf(queue, descs, packets)| <= capacity
    decreases |packets|
  {
    if packets != [] {
      var ds, ps, p := descs[..|descs| - 1], packets[..|packets| - 1], packets[|packets| - 1];
      FirstProblemNone(rs, capacity, queue, ds, ps);
      KeptSize(rs, capacity, queue, ds, ps);
      assert |RecordsOf(queue, descs, packets)| == |RecordsOf(queue, ds, ps)| + One(Wanted(p));
      AllRead(packets);
    }
  }

  predicate ClocksRead(packets: seq<Packet>) {
    forall i | 0 <= i < |packets| :: packets[i].clocks.Some?
  }

  lemma AllRead(packets: seq<Packet>)
    requires packets != []
    ensures ClocksRead(packets) <==> ClocksRead(packets[..|packets| - 1]) && packets[|packets| - 1].clocks.Some?
  {
    var init := packets[..|packets| - 1];
    assert packets == init + [packets[|packets| - 1]];
  }

  lemma KeptSize(rs: seq<Record>, capacity: nat, queue: nat, descs: seq<Desc>, packets: seq<Packet>)
    requires |descs| == |packets| && |rs| <= capacity
    ensures var all := |rs| + |RecordsOf(queue, descs, packets)|;
            |Kept(rs, capacity, queue, descs, packets)| == if all <= capacity then all else capacity
  {
    KeptIsPrefix(rs, capacity, queue, descs, packets);
  }

  lemma {:induction false} ProblemKinds(rs: seq<Record>, capacity: nat, queue: nat, descs: seq<Desc>, packets: seq<Packet>)
    requires |descs| == |packets|
    ensures FirstProblem(rs, capacity, queue, descs, packets) in {None, Some(ClockError), Some(NoSpace)}
    decreases |packets|
  {
    if packets != [] {
      ProblemKinds(rs, capacity, queue, descs[..|descs| - 1], packets[..|packets| - 1]);
    }
  }

  // ----- and what it counts

  predicate IsMalformed(p: Packet) { p.clocks.Some? && PacketUdpInfo(p.octets).None? }

  predicate IsUdp(p: Packet) { p.clocks.Some? && PacketUdpInfo(p.octets).Some? }

  predicate IsUnexpected(p: Packet) { IsUdp(p) && PacketUdpInfo(p.octets).value.port != XSK_PORT }

  /** How many of the packets are such. */
  function Number(ps: seq<Packet>, such: Packet -> bool): nat {
    if ps == [] then 0 else Number(ps[..|ps| - 1], such) + One(such(ps[|ps| - 1]))
  }

  lemma NumberStep(ps: seq<Packet>, i: nat, such: Packet -> bool)
    requires i < |ps|
    ensures Number(ps[..i + 1], such) == Number(ps[..i], such) + One(such(ps[i]))
  {
    assert ps[..i + 1][..i] == ps[..i];
  }

  /** How many of the records have no metadata. */
  function Bare(rs: seq<Record>): nat {
    if rs == [] then 0 else Bare(rs[..|rs| - 1]) + One(rs[|rs| - 1].meta.None?)
  }

  /** The counters of the packets from `c` to `d`, by what the packets are; `rs` became `rs'`. */
  predicate Tallied(c: Counters, d: Counters, ps: seq<Packet>, rs: seq<Record>, rs': seq<Record>) {
    && d.received == c.received + |ps|
    && d.malformed == c.malformed + Number(ps, IsMalformed)
    && d.udp == c.udp + Number(ps, IsUdp)
    && d.unexpectedPort == c.unexpectedPort + Number(ps, IsUnexpected)
    && d.experiment == c.experiment + Number(ps, Wanted)
    && d.overflow == c.overflow + Number(ps, Wanted) - (|rs'| - |rs|)
    && d.metaInvalid == c.metaInvalid + Bare(rs') - Bare(rs)
  }

  lemma TalliedStep(start: Counters, c: Counters, d: Counters, ps: seq<Packet>, i: nat, kept: seq<Record>, rs: seq<Record>, rs': seq<Record>)
    requires i < |ps| && Tallied(start, c, ps[..i], kept, rs)
    requires rs' == rs || (|rs'| == |rs| + 1 && rs'[..|rs|] == rs && Wanted(ps[i]))
    requires Handled(c, d, ps[i], if |rs'| > |rs| then Some(rs'[|rs'| - 1]) else None)
    ensures Tallied(start, d, ps[..i + 1], kept, rs')
  {
    NumberStep(ps, i, IsMalformed);
    NumberStep(ps, i, IsUdp);
    NumberStep(ps, i, IsUnexpected);
    NumberStep(ps, i, Wanted);
  }

  /** The header of a packet that is recorded. */
  function HeaderOf(p: Packet): Option<Header> {
    var info := PacketUdpInfo(p.octets);
    if info.None? || info.value.port != XSK_PORT then None else ExperimentId(p.octets, info.value)
  }

  /** What one packet adds to the counters. */
  predicate Handled(c: Counters, d: Counters, p: Packet, made: Option<Record>) {
    var info := PacketUdpInfo(p.octets);
    && d.received == c.received + 1 && d.recycled == c.recycled && d.invariantErrors == c.invariantErrors
    && d.malformed == c.malformed + One(p.clocks.Some? && info.None?)
    && d.udp == c.udp + One(p.clocks.Some? && info.Some?)
    && d.unexpectedPort == c.unexpectedPort + One(p.clocks.Some? && info.Some? && info.value.port != XSK_PORT)
    && d.experiment == c.experiment + One(p.clocks.Some? && HeaderOf(p).Some?)
    && d.overflow == c.overflow + One(p.clocks.Some? && HeaderOf(p).Some? && made.None?)
    && d.metaInvalid == c.metaInvalid + One(made.Some? && made.value.meta.None?)
  }

  lemma RestFrames(addrs: seq<nat>, j: nat)
    requires j < |addrs|
    ensures Frames(addrs[j..]) == [FrameOf(addrs[j])] + Frames(addrs[j + 1..])
    ensures Distinct(Frames(addrs)) ==> FrameOf(addrs[j]) !in Frames(addrs[j + 1..])
  {
    var all, rest := Frames(addrs), Frames(addrs[j + 1..]);
    if Distinct(all) {
      forall k | 0 <= k < |rest|
        ensures rest[k] != all[j]
      {
        assert rest[k] == all[j + 1 + k];
      }
    }
  }

  lemma FramesPrefix(batch: seq<Desc>, i: nat)
    requires i < |batch|
    ensures RxFrames(batch)[..i] == RxFrames(batch[..i]) && RxFrames(batch)[i] == FrameOf(BaseOf(batch[i]))
  {
  }

  lemma UnsoundFails(batch: seq<Desc>, ledger: seq<bool>, i: nat)
    requires i < |batch| && (forall j | 0 <= j < i :: ValidateDescriptor(batch[j]).Ok?) && Takeable(RxFrames(batch[..i]), ledger)
    requires ValidateDescriptor(batch[i]).Err?
    ensures FailsAt(batch, ledger, i, ValidateDescriptor(batch[i]).error)
  {
    FramesPrefix(batch, i);
  }

  lemma UntakenFails(batch: seq<Desc>, ledger: seq<bool>, i: nat)
    requires i < |batch| && (forall j | 0 <= j < i :: ValidateDescriptor(batch[j]).Ok?) && Takeable(RxFrames(batch[..i]), ledger)
    requires ValidateDescriptor(batch[i]).Ok?
    requires var f := FrameOf(BaseOf(batch[i])); f < |ledger| ==> !ledger[f] || f in RxFrames(batch[..i])
    ensures FailsAt(batch, ledger, i, Unclean) && !Takeable(RxFrames(batch), ledger)
  {
    FramesPrefix(batch, i);
    var fs, f := RxFrames(batch), FrameOf(BaseOf(batch[i]));
    assert fs[..i + 1] == fs[..i] + [f];
  }

  // ----- the whole address pool

  function AllFrames(): (fs: seq<nat>)
    ensures |fs| == NUM_FRAMES && Distinct(fs)
  {
    seq(NUM_FRAMES, i => i)
  }

  lemma {:induction false} DistinctCountedOnce(s: seq<nat>, x: nat)
    requires Distinct(s)
    ensures multiset(s)[x] <= 1
    decreases |s|
  {
    if s != [] {
      var init := s[..|s| - 1];
      assert s == init + [s[|s| - 1]];
      DistinctCountedOnce(init, x);
    }
  }

  lemma SharedCountedTwice(s: seq<nat>, i: nat, j: nat)
    requires i < j < |s| && s[i] == s[j]
    ensures multiset(s)[s[i]] >= 2
  {
    assert s == s[..j] + [s[j]] + s[j + 1..];
    assert s[i] in s[..j];
  }

  /** FILL, the kernel and RX together hold every frame exactly once. */
  ghost predicate Whole(fill: seq<nat>, kernel: multiset<nat>, rx: seq<Desc>) {
    multiset(Frames(fill)) + kernel + multiset(RxFrames(rx)) == multiset(AllFrames())
  }

  /** Right after the initial fill the pool is whole. */
  lemma InitiallyWhole(fill: seq<nat>)
    requires Frames(fill) == AllFrames()
    ensures Whole(fill, multiset{}, [])
  {
    assert RxFrames([]) == [];
  }

  /** The kernel takes the oldest address from FILL ... */
  lemma KernelTakes(fill: seq<nat>, kernel: multiset<nat>, rx: seq<Desc>)
    requires Whole(fill, kernel, rx) && fill != []
    ensures Whole(fill[1..], kernel + multiset{FrameOf(fill[0])}, rx)
  {
    assert Frames(fill) == [FrameOf(fill[0])] + Frames(fill[1..]);
  }

  /** ... and posts a descriptor for a frame it holds. */
  lemma KernelPosts(fill: seq<nat>, kernel: multiset<nat>, rx: seq<Desc>, d: Desc)
    requires Whole(fill, kernel, rx) && FrameOf(BaseOf(d)) in kernel
    ensures Whole(fill, kernel - multiset{FrameOf(BaseOf(d))}, rx + [d])
  {
    assert RxFrames(rx + [d]) == RxFrames(rx) + [FrameOf(BaseOf(d))];
  }

  /** What a published batch does to the rings keeps the pool whole. */
  lemma BatchKeepsWhole(fill: seq<nat>, kernel: multiset<nat>, rx: seq<Desc>, n: nat, slots: seq<nat>)
    requires Whole(fill, kernel, rx) && n <= |rx| && Frames(slots) == RxFrames(rx[..n])
    ensures Whole(fill + slots, kernel, rx[n..])
  {
    assert Frames(fill + slots) == Frames(fill) + Frames(slots);
    assert RxFrames(rx) == RxFrames(rx[..n]) + RxFrames(rx[n..]);
  }

  lemma PoolCount(fill: seq<nat>, kernel: multiset<nat>, rx: seq<Desc>)
    requires Whole(fill, kernel, rx)
    ensures |fill| + |kernel| + |rx| == NUM_FRAMES
  {
    var a, b := multiset(Frames(fill)), multiset(RxFrames(rx));
    assert |a| == |fill| && |b| == |rx|;
    assert |a + kernel + b| == |multiset(AllFrames())|;
  }

  lemma PoolDistinct(fill: seq<nat>, kernel: multiset<nat>, rx: seq<Desc>)
    requires Whole(fill, kernel, rx)
    ensures Distinct(RxFrames(rx))
  {
    var fs := RxFrames(rx);
    forall i, j | 0 <= i < j < |fs|
      ensures fs[i] != fs[j]
    {
      if fs[i] == fs[j] {
        SharedCountedTwice(fs, i, j);
        DistinctCountedOnce(AllFrames(), fs[i]);
        CountIsPart(multiset(Frames(fill)), kernel, multiset(fs), fs[i]);
      }
    }
  }

  lemma CountIsPart(a: multiset<nat>, b: multiset<nat>, c: multiset<nat>, x: nat)
    ensures (a + b + c)[x] >= c[x]
  {
  }

  /** With the pool whole there is always room in FILL for a batch, and its frames are
      distinct: with a full ledger and sound descriptors every batch is published. */
  lemma WholePoolNeverFails(fill: seq<nat>, kernel: multiset<nat>, rx: seq<Desc>, n: nat, ledger: seq<bool>)
    requires Whole(fill, kernel, rx) && n <= |rx| && |ledger| == NUM_FRAMES
    requires (forall f | 0 <= f < NUM_FRAMES :: ledger[f]) && (forall i | 0 <= i < |rx| :: ValidateDescriptor(rx[i]).Ok?)
    ensures |fill| + n <= NUM_FRAMES && BatchOk(rx[..n], ledger)
  {
    PoolCount(fill, kernel, rx);
    PoolDistinct(fill, kernel, rx);
    var fs := RxFrames(rx[..n]);
    assert fs == RxFrames(rx)[..n];
    forall i | 0 <= i < n
      ensures fs[i] < NUM_FRAMES
    {
      assert ValidateDescriptor(rx[i]).Ok?;
    }
  }

  // ----- every run of kernel and receiver

  datatype Pool = Pool(fill: seq<nat>, kernel: multiset<nat>, rx: seq<Desc>)

  /** The kernel takes an address, posts a descriptor, or the receiver publishes a batch with
      these FILL slots. */
  datatype PoolStep = Takes | Posts(d: Desc) | Publishes(slots: seq<nat>)

  predicate PoolEnabled(p: Pool, step: PoolStep) {
    match step
    case Takes => p.fill != []
    case Posts(d) => FrameOf(BaseOf(d)) in p.kernel && ValidateDescriptor(d).Ok?
    case Publishes(slots) => Frames(slots) == RxFrames(p.rx[..BatchSize(p.rx)])
  }

  function PoolNext(p: Pool, step: PoolStep): Pool
    requires PoolEnabled(p, step)
  {
    match step
    case Takes => Pool(p.fill[1..], p.kernel + multiset{FrameOf(p.fill[0])}, p.rx)
    case Posts(d) => Pool(p.fill, p.kernel - multiset{FrameOf(BaseOf(d))}, p.rx + [d])
    case Publishes(slots) => Pool(p.fill + slots, p.kernel, p.rx[BatchSize(p.rx)..])
  }

  predicate IsPoolRun(p: Pool, run: seq<PoolStep>)
    decreases |run|
  {
    run == [] || (PoolEnabled(p, run[0]) && IsPoolRun(PoolNext(p, run[0]), run[1..]))
  }

  function PoolAfter(p: Pool, run: seq<PoolStep>): Pool
    requires IsPoolRun(p, run)
    decreases |run|
  {
    if run == [] then p else PoolAfter(PoolNext(p, run[0]), run[1..])
  }

  /** Every frame once, and only sound descriptors on RX. */
  ghost predicate PoolOk(p: Pool) {
    Whole(p.fill, p.kernel, p.rx) && forall i | 0 <= i < |p.rx| :: ValidateDescriptor(p.rx[i]).Ok?
  }

  lemma StepKeepsPool(p: Pool, step: PoolStep)
    requires PoolOk(p) && PoolEnabled(p, step)
    ensures PoolOk(PoolNext(p, step))
  {
    match step
    case Takes => KernelTakes(p.fill, p.kernel, p.rx);
    case Posts(d) => KernelPosts(p.fill, p.kernel, p.rx, d);
    case Publishes(slots) => BatchKeepsWhole(p.fill, p.kernel, p.rx, BatchSize(p.rx), slots);
  }

  lemma {:induction false} RunKeepsPool(p: Pool, run: seq<PoolStep>)
    requires PoolOk(p) && IsPoolRun(p, run)
    ensures PoolOk(PoolAfter(p, run))
    decreases |run|
  {
    if run != [] {
      StepKeepsPool(p, run[0]);
      RunKeepsPool(PoolNext(p, run[0]), run[1..]);
    }
  }

  /** After the initial fill, and however long kernel and receiver run: FILL, kernel and RX
      hold all frames once each, no two descriptors share a frame, FILL has room for the next
      batch, and that batch is accepted as a whole. */
  lemma NoBatchEverRefused(fill: seq<nat>, run: seq<PoolStep>, ledger: seq<bool>)
    requires Frames(fill) == AllFrames() && IsPoolRun(Pool(fill, multiset{}, []), run)
    requires |ledger| == NUM_FRAMES && forall f | 0 <= f < NUM_FRAMES :: ledger[f]
    ensures var p := PoolAfter(Pool(fill, multiset{}, []), run);
            && Whole(p.fill, p.kernel, p.rx) && |p.fill| + |p.kernel| + |p.rx| == NUM_FRAMES && Distinct(RxFrames(p.rx))
            && |p.fill| + BatchSize(p.rx) <= NUM_FRAMES && BatchOk(p.rx[..BatchSize(p.rx)], ledger)
  {
    InitiallyWhole(fill);
    RunKeepsPool(Pool(fill, multiset{}, []), run);
    var p := PoolAfter(Pool(fill, multiset{}, []), run);
    PoolCount(p.fill, p.kernel, p.rx);
    PoolDistinct(p.fill, p.kernel, p.rx);
    WholePoolNeverFails(p.fill, p.kernel, p.rx, BatchSize(p.rx), ledger);
  }

  /** One call of receive_batch in such a run: it is the publishing step. */
  method ReceiveFromWholePool(r: Receiver, packets: seq<Packet>, ghost kernel: multiset<nat>) returns (result: Result<nat>, ghost slots: seq<nat>)
    requires r.Valid() && PoolOk(Pool(r.fill, kernel, r.rx))
    requires |packets| == |r.rx| && forall i | 0 <= i < |r.rx| :: |packets[i].octets| == r.rx[i].len
    requires forall f | 0 <= f < NUM_FRAMES :: r.inKernel[f]
    modifies r, r.inKernel
    ensures r.Valid() && r.inKernel[..] == old(r.inKernel[..])
    ensures PoolEnabled(old(Pool(r.fill, kernel, r.rx)), Publishes(slots))
    ensures Pool(r.fill, kernel, r.rx) == PoolNext(old(Pool(r.fill, kernel, r.rx)), Publishes(slots))
    ensures result.Err? ==> result.error in {ClockError, NoSpace}
    ensures r.counters.invariantErrors == old(r.counters).invariantErrors
  {
    ghost var fill, rx := r.fill, r.rx;
    ghost var n := BatchSize(rx);
    WholePoolNeverFails(fill, kernel, rx, n, r.inKernel[..]);
    ghost var published;
    result, published := r.ReceiveBatch(packets);
    ProblemKinds(old(r.records), r.recordCapacity, r.queue, rx[..n], packets[..n]);
    slots := r.fill[|fill|..];
    assert r.fill == fill + slots;
    if n == 0 {
      assert rx[..n] == [] && slots == [] && rx[n..] == rx;
    }
  }
}
