/** The transport handshake over the memory-mapped registers, against a device
    that may answer any read with any value.  A tracker follows the accesses as
    section 3.1.1 of the VIRTIO specification (v1.3) describes initialisation,
    and the driver's result is stated in terms of what the tracker saw and of what
    the device answered. */
module MmioHandshake {
  import opened Machine

  type u32 = x: int | 0 <= x < 0x1_0000_0000

  datatype Area = DescArea | DriverArea | DeviceArea
  datatype Half = LowHalf | HighHalf

  /** The registers that are only compared or copied. */
  datatype Register = MagicValue | Version | DeviceId | Config(at: nat) | QueueReady | QueueNumMax

  /** One register access. */
  datatype Access =
    | StatusRead(s: Bits)
    | StatusWrite(s: Bits)
    | DeviceFeaturesSel(i: nat)
    | DriverFeaturesSel(i: nat)
    | FeaturesRead(word: Bits)
    | FeaturesWrite(word: Bits)
    | QueueSel(i: nat)
    | QueueReadyWrite(v: u32)
    | AddressWrite(area: Area, half: Half, v: u32)
    | OtherRead(reg: Register, v: u32)

  const MAGIC := 0x7472_6976
  const VERSION := 2
  const CONSOLE_ID := 3
  const NUM_VQS := 2
  const TWO_TO_64 := 0x1_0000_0000_0000_0000

  /** A register word, as the set of the positions of its one bits: `|` is union
      and `&` is intersection. */
  type Bits = set<nat>

  const ACKNOWLEDGE := 0
  const DRIVER := 1
  const DRIVER_OK := 2
  const FEATURES_OK := 3
  const FAILED := 7

  /** VIRTIO_F_VERSION_1 and VIRTIO_F_ACCESS_PLATFORM. */
  const FEATURES: Bits := {32, 33}

  /** The three values the driver checks for: 3, 11 and 15. */
  const AFTER_DRIVER: Bits := {ACKNOWLEDGE, DRIVER}
  const AFTER_FEATURES: Bits := {ACKNOWLEDGE, DRIVER, FEATURES_OK}
  const AFTER_OK: Bits := {ACKNOWLEDGE, DRIVER, DRIVER_OK, FEATURES_OK}

  function Low(a: nat): u32 {
    a % 0x1_0000_0000
  }

  function High(a: nat): u32 {
    a / 0x1_0000_0000 % 0x1_0000_0000
  }

  // ---------- what an observer of the registers sees ----------

  /** The three addresses of a queue, recomposed from the halves written so far. */
  datatype QueueAddr = QueueAddr(desc: nat, avail: nat, used: nat) {
    function Area(a: Area): nat {
      match a case DescArea => desc case DriverArea => avail case DeviceArea => used
    }

    function WithHalf(a: Area, h: Half, v: u32): QueueAddr {
      var w := if h == LowHalf then Area(a) - Low(Area(a)) + v
               else Low(Area(a)) + 0x1_0000_0000 * v;
      With(a, w)
    }

    function With(a: Area, w: nat): QueueAddr {
      match a
      case DescArea => this.(desc := w)
      case DriverArea => this.(avail := w)
      case DeviceArea => this.(used := w)
    }

    predicate Fits() {
      desc < TWO_TO_64 && avail < TWO_TO_64 && used < TWO_TO_64
    }
  }

  lemma HalvesRecompose(q: QueueAddr, area: Area, addr: nat)
    requires addr < TWO_TO_64
    ensures q.WithHalf(area, LowHalf, Low(addr)).WithHalf(area, HighHalf, High(addr)) == q.With(area, addr)
  {
    var x := q.Area(area);
    assert x - Low(x) == 0x1_0000_0000 * (x / 0x1_0000_0000);
    assert Low(x - Low(x) + Low(addr)) == Low(addr);
    assert High(addr) == addr / 0x1_0000_0000;
  }

  /** `pending` is a Status value just read; unless a Status write follows at once
      (a read-modify-write) it was read to be checked.  `ready` holds the addresses
      of each queue as they stood when it was made ready, and `live` is `ready` as it
      stood at the latest write of DRIVER_OK.  `early` says that DRIVER_OK was written
      while a queue was not ready, `shown` that a Status read showed it then. */
  datatype Tracker = Tracker(pending: Option<Bits>, checked: seq<Bits>, last: Bits, shown: bool, early: bool,
                             live: map<nat, QueueAddr>,
                             devSel: nat, drvSel: nat, offered: map<nat, Bits>, accepted: map<nat, Bits>,
                             qSel: nat, queues: map<nat, QueueAddr>, ready: map<nat, QueueAddr>) {
    /** Status values read to be checked, oldest first. */
    function Readbacks(): seq<Bits> {
      if pending.Some? then checked + [pending.value] else checked
    }

    function Queue(): QueueAddr {
      if qSel in queues then queues[qSel] else QueueAddr(0, 0, 0)
    }

    predicate BothReady() {
      0 in ready && 1 in ready
    }

    function Settled(): Tracker {
      this.(pending := None, checked := Readbacks())
    }

    function StatusWritten(v: Bits): Tracker {
      this.(pending := None, last := v,
            early := early || (DRIVER_OK in v && !BothReady()),
            live := if DRIVER_OK in v then ready else live)
    }

    function Step(a: Access): Tracker {
      match a
      case StatusRead(v) => Settled().(pending := Some(v), shown := shown || (DRIVER_OK in v && !BothReady()))
      case StatusWrite(v) => StatusWritten(v)
      case DeviceFeaturesSel(i) => Settled().(devSel := i)
      case DriverFeaturesSel(i) => Settled().(drvSel := i)
      case FeaturesRead(b) => Settled().(offered := offered[devSel := b])
      case FeaturesWrite(b) => Settled().(accepted := accepted[drvSel := b])
      case QueueSel(i) => Settled().(qSel := i)
      case QueueReadyWrite(v) => Settled().(ready := if v == 1 then ready[qSel := Queue()] else ready - {qSel})
      case AddressWrite(area, half, v) => Settled().(queues := queues[qSel := Queue().WithHalf(area, half, v)])
      case OtherRead(_, _) => Settled()
    }
  }

  const Untouched := Tracker(None, [], {}, false, false, map[], 0, 0, map[], map[], 0, map[], map[])

  function Track(trace: seq<Access>): Tracker {
    if trace == [] then Untouched else Track(trace[..|trace| - 1]).Step(trace[|trace| - 1])
  }

  lemma TrackAppend(trace: seq<Access>, a: Access)
    ensures Track(trace + [a]) == Track(trace).Step(a)
  {
    assert (trace + [a])[..|trace|] == trace;
  }

  // ---------- feature words ----------

  function ShiftedLeft(w: Bits, n: nat): Bits {
    set b | b in w :: b + n
  }

  function ShiftedRight(w: Bits, n: nat): Bits {
    set b | b in w && b >= n :: (b - n) as nat
  }

  /** The 64-bit word whose halves are `high` and `low`. */
  function Word(high: Bits, low: Bits): Bits {
    low + ShiftedLeft(high, 32)
  }

  predicate FitsHalf(w: Bits) {
    forall b :: b in w ==> b < 32
  }

  /** What the driver keeps of the offered half `i`. */
  function Acked(offered: Bits, i: nat): Bits {
    offered * ShiftedRight(FEATURES, 32 * i)
  }

  /** A 32-bit register keeps the low half of what is written to it. */
  function Truncated(w: Bits): Bits {
    set b | b in w && b < 32
  }

  /** `negotiated |= acked << (i * 32)` */
  function Combined(negotiated: Bits, acked: Bits, i: nat): Bits {
    negotiated + ShiftedLeft(acked, 32 * i)
  }

  lemma AckedWord(low: Bits, high: Bits)
    requires FitsHalf(low) && FitsHalf(high)
    ensures Combined(Combined({}, Acked(low, 0), 0), Acked(high, 1), 1) == Word(high, low) * FEATURES
    ensures Word(Truncated(Acked(high, 1)), Truncated(Acked(low, 0))) == Word(high, low) * FEATURES
  {
    var offered := Word(high, low) * FEATURES;
    assert Acked(low, 0) == {};
    assert ShiftedRight(FEATURES, 32) == {0, 1} by {
      assert 32 in FEATURES && 33 in FEATURES;
    }
    assert Truncated(Acked(high, 1)) == Acked(high, 1);
    forall b: nat
      ensures b in offered <==> b in ShiftedLeft(Acked(high, 1), 32)
    {
      if b >= 32 {
        assert b in ShiftedLeft(high, 32) <==> b - 32 in high;
        assert b in ShiftedLeft(Acked(high, 1), 32) <==> b - 32 in Acked(high, 1);
      }
    }
  }

  /** What the driver supports is all in the high half. */
  lemma SupportedIsHigh(high: Bits, low: Bits)
    requires FitsHalf(low)
    ensures Word(high, low) * FEATURES == FEATURES <==> 0 in high && 1 in high
  {
    assert 32 in ShiftedLeft(high, 32) <==> 0 in high;
    assert 33 in ShiftedLeft(high, 32) <==> 1 in high;
    assert FEATURES <= Word(high, low) * FEATURES <==> 32 in Word(high, low) && 33 in Word(high, low);
  }

  /** Half `i` has been offered, and what of it is supported has been accepted. */
  predicate HalfDone(m: Tracker, i: nat) {
    && i in m.offered && i in m.accepted && FitsHalf(m.offered[i])
    && m.accepted[i] == Truncated(Acked(m.offered[i], i))
  }

  /** The first `i` halves are done, and `negotiated` is what they come to. */
  predicate HalvesDone(m: Tracker, i: nat, negotiated: Bits) {
    && (i >= 1 ==> HalfDone(m, 0))
    && (i >= 2 ==> HalfDone(m, 1))
    && negotiated == match i
                     case 0 => {}
                     case 1 => Combined({}, Acked(m.offered[0], 0), 0)
                     case _ => Combined(Combined({}, Acked(m.offered[0], 0), 0), Acked(m.offered[1], 1), 1)
  }

  lemma HalfMore(m: Tracker, m': Tracker, i: nat, negotiated: Bits, acked: Bits)
    requires HalvesDone(m, i, negotiated) && i < 2
    requires HalfDone(m', i) && acked == Acked(m'.offered[i], i)
    requires forall j :: j != i && HalfDone(m, j) ==> HalfDone(m', j) && m'.offered[j] == m.offered[j]
    ensures HalvesDone(m', i + 1, Combined(negotiated, acked, i))
  {
  }

  lemma HalvesNegotiate(m: Tracker, negotiated: Bits)
    requires HalvesDone(m, 2, negotiated)
    ensures Negotiated(m, negotiated)
    ensures negotiated == FEATURES <==> 0 in m.offered[1] && 1 in m.offered[1]
  {
    AckedWord(m.offered[0], m.offered[1]);
    SupportedIsHigh(m.offered[1], m.offered[0]);
  }

  /** The negotiated word is what was offered and is supported, and is what the
      device was told. */
  predicate Negotiated(m: Tracker, negotiated: Bits) {
    && 0 in m.offered && 1 in m.offered && 0 in m.accepted && 1 in m.accepted
    && negotiated == Word(m.offered[1], m.offered[0]) * FEATURES
    && negotiated == Word(m.accepted[1], m.accepted[0])
  }

  // ---------- the conversation ----------

  /** The accesses of a handshake that succeeds, in the order of section 3.1.1 of the
      VIRTIO specification (v1.3), given what the device answers. */
  ghost function Conversation(d: Device, vqs: seq<QueueAddr>): seq<Access>
    requires |vqs| == NUM_VQS
  {
    IdentityTalk(d) + StatusTalk(d) + HalfTalk(d, 0) + HalfTalk(d, 1) + FeaturesOkTalk(d)
    + QueuesTalk(d, vqs, NUM_VQS) + OkTalk(d)
  }

  ghost function IdentityTalk(d: Device): seq<Access> {
    [OtherRead(MagicValue, d.word(MagicValue, 0)), OtherRead(Version, d.word(Version, 1)),
     OtherRead(DeviceId, d.word(DeviceId, 2))]
  }

  /** Reset, ACKNOWLEDGE and DRIVER. */
  ghost function StatusTalk(d: Device): seq<Access> {
    [StatusWrite({})] + OrTalk(d, ACKNOWLEDGE_READ, ACKNOWLEDGE) + OrTalk(d, DRIVER_READ, DRIVER)
    + [StatusRead(d.status(DRIVER_CHECK))]
  }

  /** Reading Status at position `k` and writing it back with one bit more. */
  ghost function OrTalk(d: Device, k: nat, bit: nat): seq<Access> {
    [StatusRead(d.status(k)), StatusWrite(d.status(k) + {bit})]
  }

  ghost function HalfTalk(d: Device, i: nat): seq<Access> {
    var offered := Truncated(d.features(HIGH_FEATURES - 4 + 4 * i));
    [DeviceFeaturesSel(i), DriverFeaturesSel(i), FeaturesRead(offered), FeaturesWrite(Truncated(Acked(offered, i)))]
  }

  ghost function FeaturesOkTalk(d: Device): seq<Access> {
    var k := HIGH_FEATURES + 2;
    [OtherRead(Config(0), d.word(Config(0), k)), OtherRead(Config(0), d.word(Config(0), k + 1)),
     OtherRead(Config(4), d.word(Config(4), k + 2)), OtherRead(Config(8), d.word(Config(8), k + 3))]
    + OrTalk(d, FEATURES_OK_READ, FEATURES_OK) + [StatusRead(d.status(FEATURES_CHECK))]
  }

  ghost function QueueTalk(d: Device, i: nat, q: QueueAddr): seq<Access> {
    ProbeTalk(d, i) + ReadyTalk(q)
  }

  /** The first `i` queues. */
  ghost function QueuesTalk(d: Device, vqs: seq<QueueAddr>, i: nat): seq<Access>
    requires i <= |vqs|
  {
    if i == 0 then [] else QueuesTalk(d, vqs, i - 1) + QueueTalk(d, i - 1, vqs[i - 1])
  }

  lemma {:induction false} QueuesPrefix(d: Device, vqs: seq<QueueAddr>, i: nat)
    requires i < |vqs| == NUM_VQS
    ensures QueuesTalk(d, vqs, i) + QueueTalk(d, i, vqs[i]) == QueuesTalk(d, vqs, i + 1) <= QueuesTalk(d, vqs, NUM_VQS)
    decreases NUM_VQS - i
  {
    if i + 1 < NUM_VQS {
      QueuesPrefix(d, vqs, i + 1);
    }
  }

  lemma QueueTold(was: seq<Access>, trace: seq<Access>, trace': seq<Access>, d: Device, vqs: seq<QueueAddr>, i: nat)
    requires i < |vqs| == NUM_VQS && trace == was + QueuesTalk(d, vqs, i) && trace' <= trace + QueueTalk(d, i, vqs[i])
    ensures trace' <= was + QueuesTalk(d, vqs, NUM_VQS)
    ensures trace' == trace + QueueTalk(d, i, vqs[i]) ==> trace' == was + QueuesTalk(d, vqs, i + 1)
  {
    QueuesPrefix(d, vqs, i);
    Associate(was, QueuesTalk(d, vqs, i), QueueTalk(d, i, vqs[i]));
    PrefixOfLonger(trace', was, QueuesTalk(d, vqs, i + 1), QueuesTalk(d, vqs, NUM_VQS));
  }

  lemma Associate<T>(a: seq<T>, b: seq<T>, c: seq<T>)
    ensures a + b + c == a + (b + c)
  {
  }

  lemma PrefixOfLonger<T>(t: seq<T>, a: seq<T>, b: seq<T>, c: seq<T>)
    requires t <= a + b && b <= c
    ensures t <= a + c
  {
    assert c == b + c[|b|..];
    assert a + c == a + b + c[|b|..];
  }

  ghost function ProbeTalk(d: Device, i: nat): seq<Access> {
    var k := QueueReads(i);
    [QueueSel(i), OtherRead(QueueReady, d.word(QueueReady, k)), OtherRead(QueueNumMax, d.word(QueueNumMax, k + 1))]
  }

  ghost function ReadyTalk(q: QueueAddr): seq<Access> {
    AreaTalk(DescArea, q.desc) + AreaTalk(DriverArea, q.avail) + AreaTalk(DeviceArea, q.used) + [QueueReadyWrite(1)]
  }

  ghost function AreaTalk(area: Area, addr: nat): seq<Access> {
    [AddressWrite(area, LowHalf, Low(addr)), AddressWrite(area, HighHalf, High(addr))]
  }

  ghost function OkTalk(d: Device): seq<Access> {
    OrTalk(d, OK_READ, DRIVER_OK) + [StatusRead(d.status(OK_CHECK))]
  }

  /** The conversation as far as its first `k` stages. */
  ghost function UpTo(d: Device, vqs: seq<QueueAddr>, k: nat): seq<Access>
    requires |vqs| == NUM_VQS
  {
    match k
    case 0 => []
    case 1 => IdentityTalk(d)
    case 2 => UpTo(d, vqs, 1) + StatusTalk(d)
    case 3 => UpTo(d, vqs, 2) + HalfTalk(d, 0) + HalfTalk(d, 1)
    case 4 => UpTo(d, vqs, 3) + FeaturesOkTalk(d)
    case 5 => UpTo(d, vqs, 4) + QueuesTalk(d, vqs, NUM_VQS)
    case _ => UpTo(d, vqs, 5) + OkTalk(d)
  }

  lemma StageGrows(d: Device, vqs: seq<QueueAddr>, k: nat)
    requires |vqs| == NUM_VQS && k < 6
    ensures UpTo(d, vqs, k) <= UpTo(d, vqs, k + 1)
  {
    assert k in {0, 1, 2, 3, 4, 5};
  }

  lemma {:induction false} PartOf(d: Device, vqs: seq<QueueAddr>, j: nat, k: nat)
    requires |vqs| == NUM_VQS && j <= k <= 6
    ensures UpTo(d, vqs, j) <= UpTo(d, vqs, k)
    decreases k - j
  {
    if j < k {
      StageGrows(d, vqs, j);
      PartOf(d, vqs, j + 1, k);
    }
  }

  lemma AllOfIt(d: Device, vqs: seq<QueueAddr>)
    requires |vqs| == NUM_VQS
    ensures UpTo(d, vqs, 6) == Conversation(d, vqs)
  {
    var c1 := UpTo(d, vqs, 1);
    var c2 := UpTo(d, vqs, 2);
    var c3 := UpTo(d, vqs, 3);
    var c4 := UpTo(d, vqs, 4);
    var c5 := UpTo(d, vqs, 5);
    assert c2 == c1 + StatusTalk(d);
    assert c3 == c2 + HalfTalk(d, 0) + HalfTalk(d, 1);
    assert c4 == c3 + FeaturesOkTalk(d);
    assert c5 == c4 + QueuesTalk(d, vqs, NUM_VQS);
  }

  /** A handshake that failed: the start of the conversation, and then FAILED. */
  ghost predicate GaveUp(trace: seq<Access>, d: Device, vqs: seq<QueueAddr>)
    requires |vqs| == NUM_VQS
  {
    && |trace| >= 2 && trace[..|trace| - 2] <= Conversation(d, vqs)
    && trace == trace[..|trace| - 2] + OrTalk(d, |trace| - 2, FAILED)
  }

  // ---------- what the driver's steps keep and reach ----------

  /** The device can recompose the three addresses of queue `i`. */
  predicate Addressed(m: Tracker, i: nat, q: QueueAddr) {
    i in m.queues && m.queues[i] == q
  }

  /** Queue `i` was described before it was made ready, and not since. */
  predicate SetUp(m: Tracker, i: nat, q: QueueAddr) {
    Addressed(m, i, q) && i in m.ready && m.ready[i] == q
  }

  predicate QueueKept(m: Tracker, m': Tracker, j: nat) {
    && (j in m.ready ==> j in m'.ready && m'.ready[j] == m.ready[j])
    && (j in m.queues ==> j in m'.queues && m'.queues[j] == m.queues[j])
  }

  /** The first `i` queues are set up, and the device let them be. */
  ghost predicate QueuesUp(m: Tracker, d: Device, vqs: seq<QueueAddr>, i: nat) {
    i <= |vqs| && forall j | 0 <= j < i :: AcceptsQueue(d, j) && SetUp(m, j, vqs[j])
  }

  lemma OneMoreUp(m: Tracker, m': Tracker, d: Device, vqs: seq<QueueAddr>, i: nat)
    requires QueuesUp(m, d, vqs, i) && i < |vqs| && AcceptsQueue(d, i) && SetUp(m', i, vqs[i])
    requires forall j :: j != i ==> QueueKept(m, m', j)
    ensures QueuesUp(m', d, vqs, i + 1)
  {
    forall j | 0 <= j < i
      ensures SetUp(m', j, vqs[j])
    {
      assert QueueKept(m, m', j);
    }
  }

  predicate SameFeatures(m: Tracker, m': Tracker) {
    m'.offered == m.offered && m'.accepted == m.accepted
  }

  predicate SameQueues(m: Tracker, m': Tracker) {
    m'.queues == m.queues && m'.ready == m.ready
  }

  /** Only the Status register was touched. */
  predicate Talked(m: Tracker, m': Tracker) {
    SameFeatures(m, m') && SameQueues(m, m')
  }

  /** What a successful handshake guarantees, whatever the device answered: the checks
      saw 3, 11 and 15 in that order; both queues were described, then made ready, and
      stood so when DRIVER_OK was last written; it was written before that exactly when
      a Status read had shown it; and the negotiated word is offered AND supported,
      told to the device, and everything supported. */
  predicate Complete(m: Tracker, negotiated: Bits, vqs: seq<QueueAddr>)
    requires |vqs| == NUM_VQS
  {
    && m.Readbacks() == [AFTER_DRIVER, AFTER_FEATURES, AFTER_OK]
    && SetUp(m, 0, vqs[0]) && SetUp(m, 1, vqs[1]) && m.live == m.ready
    && (m.early <==> m.shown)
    && Negotiated(m, negotiated) && negotiated == FEATURES
  }

  /** Accesses to other registers leave the Status history alone. */
  predicate Untroubled(m: Tracker, m': Tracker) {
    && m'.Readbacks() == m.Readbacks() && m'.last == m.last && m'.shown == m.shown
    && m'.early == m.early && m'.live == m.live
  }

  // ---------- the device ----------

  /** What the device answers to a read that is the k-th access of the conversation,
      for each register.  The driver is deterministic, so any device, however it comes
      to its answers, is such a function for the run it takes part in. */
  datatype Device = Device(status: nat -> Bits, features: nat -> Bits, word: (Register, nat) -> u32)

  // Where in a conversation the driver reads.
  const ACKNOWLEDGE_READ := 4
  const DRIVER_READ := 6
  const DRIVER_CHECK := 8
  const HIGH_FEATURES := 15
  const FEATURES_OK_READ := 21
  const FEATURES_CHECK := 23
  const OK_READ := 44
  const OK_CHECK := 46

  function QueueReads(i: nat): (k: nat) { 25 + 10 * i }

  /** The answers that the driver goes through with. */
  ghost predicate Accepts(d: Device) {
    Introduced(d) && AcceptsQueue(d, 0) && AcceptsQueue(d, 1) && d.status(OK_CHECK) == AFTER_OK
  }

  /** Those up to the second check of Status. */
  ghost predicate Introduced(d: Device) {
    && d.word(MagicValue, 0) == MAGIC && d.word(Version, 1) == VERSION && d.word(DeviceId, 2) == CONSOLE_ID
    && d.status(DRIVER_CHECK) == AFTER_DRIVER
    && 0 in d.features(HIGH_FEATURES) && 1 in d.features(HIGH_FEATURES)
    && d.status(FEATURES_CHECK) == AFTER_FEATURES
  }

  ghost predicate AcceptsQueue(d: Device, i: nat) {
    d.word(QueueReady, QueueReads(i)) == 0 && d.word(QueueNumMax, QueueReads(i) + 1) != 0
  }

  /** The device shows DRIVER_OK, which nobody has set, to a read whose value the
      driver writes back before the queues are ready. */
  ghost predicate Premature(d: Device) {
    || DRIVER_OK in d.status(ACKNOWLEDGE_READ)
    || DRIVER_OK in d.status(DRIVER_READ)
    || DRIVER_OK in d.status(FEATURES_OK_READ)
  }

  // ---------- the driver ----------

  class Transport {
    const vqs: seq<QueueAddr>
    const device: Device
    var negotiated: Bits
    /** The conversation so far. */
    var trace: seq<Access>

    ghost function Seen(): Tracker
      reads this
    {
      Track(trace)
    }

    constructor (vqs: seq<QueueAddr>, device: Device)
      ensures this.vqs == vqs && this.device == device && negotiated == {} && trace == []
    {
      this.vqs, this.device, negotiated, trace := vqs, device, {}, [];
    }

    /** Every access is recorded. */
    method Record(a: Access)
      modifies `trace
      ensures trace == old(trace) + [a] && Seen() == old(Seen()).Step(a)
    {
      TrackAppend(trace, a);
      trace := trace + [a];
    }

    method ReadStatus() returns (v: Bits)
      modifies `trace
      ensures v == device.status(|old(trace)|) && trace == old(trace) + [StatusRead(v)]
      ensures Seen() == old(Seen()).Step(StatusRead(v))
    {
      v := device.status(|trace|);
      Record(StatusRead(v));
    }

    method ReadOther(reg: Register) returns (v: u32)
      modifies `trace
      ensures v == device.word(reg, |old(trace)|) && trace == old(trace) + [OtherRead(reg, v)]
      ensures Seen() == old(Seen()).Settled()
    {
      v := device.word(reg, |trace|);
      Record(OtherRead(reg, v));
    }

    method ReadFeatures() returns (v: Bits)
      modifies `trace
      ensures v == Truncated(device.features(|old(trace)|)) && trace == old(trace) + [FeaturesRead(v)]
      ensures Seen() == old(Seen()).Step(FeaturesRead(v))
    {
      v := Truncated(device.features(|trace|));
      Record(FeaturesRead(v));
    }

    /** `Status |= bit`: DRIVER_OK is written early only if the device showed it, and
        always then. */
    method OrStatus(bit: nat)
      modifies `trace
      ensures trace == old(trace) + OrTalk(device, |old(trace)|, bit) && bit in Seen().last
      ensures Seen() == old(Seen()).Settled().(shown := Seen().shown).StatusWritten(Seen().last)
      ensures Seen().shown <==> old(Seen()).shown || (Shows(|old(trace)|) && !Seen().BothReady())
      ensures bit != DRIVER_OK || Seen().BothReady() ==>
                (Seen().early <==> old(Seen()).early || (Shows(|old(trace)|) && !Seen().BothReady()))
    {
      var v := ReadStatus();
      Record(StatusWrite(v + {bit}));
    }

    ghost predicate Shows(k: nat) {
      DRIVER_OK in device.status(k)
    }

    /** Reading Status in order to check it. */
    method CheckStatus(expected: Bits) returns (ok: bool)
      modifies `trace
      ensures trace == old(trace) + [StatusRead(device.status(|old(trace)|))]
      ensures Seen() == old(Seen()).Step(StatusRead(device.status(|old(trace)|)))
      ensures ok <==> device.status(|old(trace)|) == expected
    {
      var v := ReadStatus();
      ok := v == expected;
    }

    /** Every failure leaves FAILED in the Status register. */
    method Fail() returns (ok: bool)
      modifies `trace
      ensures !ok && FAILED in Seen().last && Seen().pending == None
      ensures trace == old(trace) + OrTalk(device, |old(trace)|, FAILED)
      ensures (old(Seen()).early ==> old(Seen()).shown) ==> (Seen().early ==> Seen().shown)
    {
      OrStatus(FAILED);
      ok := false;
    }

    /** Magic value, version and device id; nothing is written. */
    method CheckIdentity() returns (ok: bool)
      requires trace == []
      modifies `trace
      ensures Seen() == Untouched
      ensures ok <==> device.word(MagicValue, 0) == MAGIC && device.word(Version, 1) == VERSION
                      && device.word(DeviceId, 2) == CONSOLE_ID
      ensures trace <= IdentityTalk(device) && (ok ==> trace == IdentityTalk(device))
    {
      var magic := ReadOther(MagicValue);
      if magic != MAGIC {
        return false;
      }
      var version := ReadOther(Version);
      if version != VERSION {
        return false;
      }
      var id := ReadOther(DeviceId);
      ok := id == CONSOLE_ID;
    }

    /** Reset, ACKNOWLEDGE, DRIVER, then the first check. */
    method Acknowledge() returns (ok: bool)
      requires Seen() == Untouched && |trace| == 3
      modifies `trace
      ensures trace == old(trace) + StatusTalk(device) && |trace| == DRIVER_CHECK + 1
      ensures ok <==> device.status(DRIVER_CHECK) == AFTER_DRIVER
      ensures Seen().early ==> Seen().shown
      ensures ok ==> Seen().Readbacks() == [AFTER_DRIVER] && Seen().ready == map[]
      ensures ok ==> (Seen().early <==> Seen().shown)
      ensures ok ==> (Seen().shown <==> Shows(ACKNOWLEDGE_READ) || Shows(DRIVER_READ))
    {
      Record(StatusWrite({}));
      OrStatus(ACKNOWLEDGE);
      OrStatus(DRIVER);
      ok := CheckStatus(AFTER_DRIVER);
    }

    /** One half of the feature word: accept what is both offered and supported. */
    method NegotiateHalf(i: nat) returns (acked: Bits)
      requires i < 2 && |trace| == DRIVER_CHECK + 1 + 4 * i
      modifies `trace
      ensures trace == old(trace) + HalfTalk(device, i) && |trace| == |old(trace)| + 4
      ensures Untroubled(old(Seen()), Seen()) && SameQueues(old(Seen()), Seen())
      ensures HalfDone(Seen(), i) && acked == Acked(Seen().offered[i], i)
      ensures Seen().offered[i] == Truncated(device.features(|old(trace)| + 2))
      ensures forall j :: j != i && HalfDone(old(Seen()), j) ==>
                HalfDone(Seen(), j) && Seen().offered[j] == old(Seen()).offered[j]
    {
      Record(DeviceFeaturesSel(i));
      Record(DriverFeaturesSel(i));
      var offered := ReadFeatures();
      acked := Acked(offered, i);
      Record(FeaturesWrite(Truncated(acked)));
    }

    /** Negotiate both halves, and require the result to be everything supported. */
    method NegotiateFeatures() returns (ok: bool)
      requires negotiated == {} && |trace| == DRIVER_CHECK + 1
      modifies `trace, `negotiated
      ensures trace == old(trace) + HalfTalk(device, 0) + HalfTalk(device, 1) && |trace| == HIGH_FEATURES + 2
      ensures ok <==> negotiated == FEATURES
      ensures ok <==> 0 in device.features(HIGH_FEATURES) && 1 in device.features(HIGH_FEATURES)
      ensures Negotiated(Seen(), negotiated)
      ensures Untroubled(old(Seen()), Seen()) && SameQueues(old(Seen()), Seen())
    {
      ghost var m := Seen();
      var i := 0;
      while i < 2
        invariant 0 <= i <= 2 && |trace| == DRIVER_CHECK + 1 + 4 * i
        invariant trace == old(trace) + (if i >= 1 then HalfTalk(device, 0) else [])
                           + (if i >= 2 then HalfTalk(device, 1) else [])
        invariant Untroubled(m, Seen()) && SameQueues(m, Seen()) && HalvesDone(Seen(), i, negotiated)
        invariant i == 2 ==> Seen().offered[1] == Truncated(device.features(HIGH_FEATURES))
      {
        ghost var before := Seen();
        var acked := NegotiateHalf(i);
        HalfMore(before, Seen(), i, negotiated, acked);
        negotiated := Combined(negotiated, acked, i);
        i := i + 1;
      }
      HalvesNegotiate(Seen(), negotiated);
      ok := negotiated == FEATURES;
    }

    /** FEATURES_OK, then the second check; the configuration reads come first. */
    method ConfirmFeatures() returns (ok: bool)
      requires |trace| == HIGH_FEATURES + 2 && Seen().ready == map[] && (Seen().early <==> Seen().shown)
      modifies `trace
      ensures trace == old(trace) + FeaturesOkTalk(device) && |trace| == FEATURES_CHECK + 1
      ensures ok <==> device.status(FEATURES_CHECK) == AFTER_FEATURES
      ensures Talked(old(Seen()), Seen())
      ensures Seen().early ==> Seen().shown
      ensures ok ==> (Seen().early <==> Seen().shown)
      ensures ok ==> (Seen().shown <==> old(Seen()).shown || Shows(FEATURES_OK_READ))
      ensures ok ==> Seen().Readbacks() == old(Seen()).Readbacks() + [AFTER_FEATURES]
    {
      var cols := ReadOther(Config(0));
      var rows := ReadOther(Config(0));
      var ports := ReadOther(Config(4));
      var emerg := ReadOther(Config(8));
      OrStatus(FEATURES_OK);
      ok := CheckStatus(AFTER_FEATURES);
    }

    /** The two halves of one area's address. */
    method WriteAddress(area: Area, addr: nat)
      requires addr < TWO_TO_64
      modifies `trace
      ensures trace == old(trace) + AreaTalk(area, addr)
      ensures Seen() == old(Seen()).Settled().(queues := Seen().queues)
      ensures Seen().queues.Keys == old(Seen()).queues.Keys + {Seen().qSel}
      ensures Seen().Queue() == old(Seen()).Queue().With(area, addr)
      ensures forall j :: j in old(Seen()).queues && j != Seen().qSel ==> Seen().queues[j] == old(Seen()).queues[j]
    {
      HalvesRecompose(Seen().Queue(), area, addr);
      Record(AddressWrite(area, LowHalf, Low(addr)));
      Record(AddressWrite(area, HighHalf, High(addr)));
    }

    /** The three addresses of the selected queue. */
    method WriteAddresses(q: QueueAddr)
      requires q.Fits()
      modifies `trace
      ensures trace == old(trace) + AreaTalk(DescArea, q.desc) + AreaTalk(DriverArea, q.avail)
                       + AreaTalk(DeviceArea, q.used)
      ensures Seen() == old(Seen()).Settled().(queues := Seen().queues)
      ensures Seen().qSel in Seen().queues && Seen().queues[Seen().qSel] == q
      ensures forall j :: j in old(Seen()).queues && j != Seen().qSel ==>
                j in Seen().queues && Seen().queues[j] == old(Seen()).queues[j]
    {
      WriteAddress(DescArea, q.desc);
      WriteAddress(DriverArea, q.avail);
      WriteAddress(DeviceArea, q.used);
    }

    /** Queue `i` is selected; it must not be ready and must exist. */
    method Probe(i: nat) returns (ok: bool)
      requires |trace| == QueueReads(i) - 1
      modifies `trace
      ensures ok <==> AcceptsQueue(device, i)
      ensures trace <= old(trace) + ProbeTalk(device, i) && (ok ==> trace == old(trace) + ProbeTalk(device, i))
      ensures Seen() == old(Seen()).Settled().(qSel := i)
    {
      Record(QueueSel(i));
      var ready := ReadOther(QueueReady);
      if ready != 0 {
        return false;
      }
      var max := ReadOther(QueueNumMax);
      ok := max != 0;
    }

    /** The selected queue is described and made ready. */
    method MakeReady(q: QueueAddr)
      requires q.Fits()
      modifies `trace
      ensures trace == old(trace) + ReadyTalk(q)
      ensures Seen() == old(Seen()).Settled().(queues := Seen().queues, ready := old(Seen()).ready[Seen().qSel := q])
      ensures Seen().qSel in Seen().queues && Seen().queues[Seen().qSel] == q
      ensures forall j :: j in old(Seen()).queues && j != Seen().qSel ==>
                j in Seen().queues && Seen().queues[j] == old(Seen()).queues[j]
    {
      WriteAddresses(q);
      Record(QueueReadyWrite(1));
    }

    /** Queue `i` is selected, described and made ready, or refused. */
    method SetUpQueue(i: nat) returns (ok: bool)
      requires i < |vqs| && vqs[i].Fits() && |trace| == QueueReads(i) - 1
      modifies `trace
      ensures Untroubled(old(Seen()), Seen()) && SameFeatures(old(Seen()), Seen())
      ensures forall j :: j != i ==> QueueKept(old(Seen()), Seen(), j)
      ensures ok <==> AcceptsQueue(device, i)
      ensures trace <= old(trace) + QueueTalk(device, i, vqs[i])
      ensures ok ==> trace == old(trace) + QueueTalk(device, i, vqs[i])
      ensures ok ==> |trace| == QueueReads(i) + 9 && SetUp(Seen(), i, vqs[i])
    {
      ok := Probe(i);
      if ok {
        MakeReady(vqs[i]);
      }
    }

    method SetUpQueues() returns (ok: bool)
      requires |vqs| == NUM_VQS && vqs[0].Fits() && vqs[1].Fits() && |trace| == FEATURES_CHECK + 1
      modifies `trace
      ensures Untroubled(old(Seen()), Seen()) && SameFeatures(old(Seen()), Seen())
      ensures ok <==> AcceptsQueue(device, 0) && AcceptsQueue(device, 1)
      ensures trace <= old(trace) + QueuesTalk(device, vqs, NUM_VQS)
      ensures ok ==> trace == old(trace) + QueuesTalk(device, vqs, NUM_VQS)
      ensures ok ==> |trace| == FEATURES_CHECK + 21 && SetUp(Seen(), 0, vqs[0]) && SetUp(Seen(), 1, vqs[1])
    {
      ghost var m := Seen();
      var i := 0;
      while i < NUM_VQS
        invariant 0 <= i <= NUM_VQS && |trace| == QueueReads(i) - 1
        invariant trace == old(trace) + QueuesTalk(device, vqs, i)
        invariant Untroubled(m, Seen()) && SameFeatures(m, Seen())
        invariant QueuesUp(Seen(), device, vqs, i)
      {
        ghost var before, said := Seen(), trace;
        ok := SetUpQueue(i);
        QueueTold(old(trace), said, trace, device, vqs, i);
        if !ok {
          return;
        }
        OneMoreUp(before, Seen(), device, vqs, i);
        i := i + 1;
      }
      ok := true;
    }

    /** DRIVER_OK, then the last check. */
    method GoLive() returns (ok: bool)
      requires Seen().BothReady() && |trace| == FEATURES_CHECK + 21
      modifies `trace
      ensures trace == old(trace) + OkTalk(device)
      ensures ok <==> device.status(OK_CHECK) == AFTER_OK
      ensures Talked(old(Seen()), Seen()) && Seen().live == Seen().ready
      ensures Seen().shown == old(Seen()).shown && Seen().early == old(Seen()).early
      ensures ok ==> Seen().Readbacks() == old(Seen()).Readbacks() + [AFTER_OK]
    {
      OrStatus(DRIVER_OK);
      ok := CheckStatus(AFTER_OK);
    }

    /** `virtio_console_mmio_init`: each check that fails ends it, with FAILED written. */
    method MmioInit() returns (ok: bool)
      requires trace == [] && negotiated == {} && |vqs| == NUM_VQS && vqs[0].Fits() && vqs[1].Fits()
      modifies `trace, `negotiated
      ensures ok <==> Accepts(device)
      ensures ok ==> trace == Conversation(device, vqs)
      ensures !ok ==> GaveUp(trace, device, vqs) && FAILED in Seen().last && Seen().pending == None
      ensures Seen().early ==> Seen().shown
      ensures ok ==> Complete(Seen(), negotiated, vqs) && (Seen().early <==> Premature(device))
    {
      ok := Converse();
      if !ok {
        ghost var said := trace;
        ok := Fail();
        assert trace[..|trace| - 2] == said;
      }
    }

    /** The handshake up to the first check that fails, if any. */
    method Converse() returns (ok: bool)
      requires trace == [] && negotiated == {} && |vqs| == NUM_VQS && vqs[0].Fits() && vqs[1].Fits()
      modifies `trace, `negotiated
      ensures ok <==> Accepts(device)
      ensures trace <= Conversation(device, vqs) && (ok ==> trace == Conversation(device, vqs))
      ensures Seen().early ==> Seen().shown
      ensures ok ==> Complete(Seen(), negotiated, vqs) && (Seen().early <==> Premature(device))
    {
      ok := Introduce();
      AllOfIt(device, vqs);
      PartOf(device, vqs, 4, 6);
      if !ok {
        return;
      }
      ok := Serve();
    }

    /** As far as the second check of Status. */
    method Introduce() returns (ok: bool)
      requires trace == [] && negotiated == {} && |vqs| == NUM_VQS
      modifies `trace, `negotiated
      ensures ok <==> Introduced(device)
      ensures trace <= UpTo(device, vqs, 4) && (ok ==> trace == UpTo(device, vqs, 4))
      ensures Seen().early ==> Seen().shown
      ensures ok ==> |trace| == FEATURES_CHECK + 1 && Seen().Readbacks() == [AFTER_DRIVER, AFTER_FEATURES]
      ensures ok ==> Seen().ready == map[] && Negotiated(Seen(), negotiated) && negotiated == FEATURES
      ensures ok ==> (Seen().early <==> Seen().shown) && (Seen().shown <==> Premature(device))
    {
      ok := CheckIdentity();
      PartOf(device, vqs, 1, 4);
      if !ok {
        return;
      }
      ok := Acknowledge();
      PartOf(device, vqs, 2, 4);
      assert trace == UpTo(device, vqs, 2);
      if !ok {
        return;
      }
      ok := NegotiateFeatures();
      PartOf(device, vqs, 3, 4);
      assert trace == UpTo(device, vqs, 3);
      if !ok {
        return;
      }
      ok := ConfirmFeatures();
      assert trace == UpTo(device, vqs, 4);
    }

    /** The queues, and DRIVER_OK. */
    method Serve() returns (ok: bool)
      requires |trace| == FEATURES_CHECK + 1 && Seen().ready == map[]
      requires |vqs| == NUM_VQS && vqs[0].Fits() && vqs[1].Fits() && trace == UpTo(device, vqs, 4)
      modifies `trace
      ensures ok <==> AcceptsQueue(device, 0) && AcceptsQueue(device, 1) && device.status(OK_CHECK) == AFTER_OK
      ensures trace <= Conversation(device, vqs) && (ok ==> trace == Conversation(device, vqs))
      ensures SameFeatures(old(Seen()), Seen())
      ensures Seen().shown == old(Seen()).shown && Seen().early == old(Seen()).early
      ensures ok ==> SetUp(Seen(), 0, vqs[0]) && SetUp(Seen(), 1, vqs[1]) && Seen().live == Seen().ready
      ensures ok ==> Seen().Readbacks() == old(Seen()).Readbacks() + [AFTER_OK]
    {
      AllOfIt(device, vqs);
      PartOf(device, vqs, 5, 6);
      ok := SetUpQueues();
      assert trace <= UpTo(device, vqs, 5);
      if !ok {
        return;
      }
      ok := GoLive();
    }
  }

  // ---------- a device that makes the driver announce itself too soon ----------

  /** It shows DRIVER_OK to the read in `Status |= ACKNOWLEDGE`, and then answers as
      the driver expects. */
  const HASTY: Device := Device(
    k => if k == ACKNOWLEDGE_READ then {DRIVER_OK}
         else if k <= DRIVER_CHECK then AFTER_DRIVER
         else if k <= FEATURES_CHECK then AFTER_FEATURES
         else AFTER_OK,
    k => {0, 1},
    (reg: Register, k: nat) =>
      match reg
      case MagicValue => MAGIC
      case Version => VERSION
      case DeviceId => CONSOLE_ID
      case QueueReady => 0
      case _ => 1)

  /** So the driver's checks do not keep DRIVER_OK back: this device passes them all
      and has DRIVER_OK written before any queue is ready. */
  lemma HastyIsAccepted()
    ensures Accepts(HASTY) && Premature(HASTY)
  {
  }

  /** The run itself. */
  method RunHasty(vqs: seq<QueueAddr>) returns (t: Transport, ok: bool)
    requires |vqs| == NUM_VQS && vqs[0].Fits() && vqs[1].Fits()
    ensures ok && Complete(t.Seen(), t.negotiated, vqs) && t.Seen().early
  {
    HastyIsAccepted();
    t := new Transport(vqs, HASTY);
    ok := t.MmioInit();
  }
}
