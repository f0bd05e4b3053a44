/** `virtio_console_init` as a whole: the queues are laid out in the shared memory
    and set up, and the device is told where they are. */
module ConsoleDriver {
  import opened Machine
  import opened Rings
  import opened Virtqueue
  import opened RxProtocol
  import opened ConsoleObject
  import Layout
  import Mmio = MmioHandshake

  /** What the device is told of a queue in these areas. */
  function AddrOf(a: Layout.Areas): (q: Mmio.QueueAddr) {
    Mmio.QueueAddr(a.desc, a.avail, a.used)
  }

  /** The receive queue comes first in the shared memory and the transmit queue after
      it.  The console is ready afterwards whether or not the handshake succeeded. */
  method Init(n: nat, shmem: nat, rxMem: array<byte>, txMem: array<byte>, device: Mmio.Device)
    returns (console: Console, transport: Mmio.Transport, ok: bool)
    requires RingSize(n) && shmem + 2 * Layout.TotalSize(n) <= Mmio.TWO_TO_64
    requires rxMem.Length > 2 * Layout.PoolSize(n) && txMem.Length > 2 * Layout.PoolSize(n) && rxMem != txMem
    modifies rxMem, txMem
    ensures console.ready && SetUp(console, n, Layout.AreasAt(shmem, n), Layout.AreasAt(shmem + Layout.TotalSize(n), n))
    ensures ok <==> Mmio.Accepts(device)
    ensures ok ==> Told(transport.trace, transport.negotiated, device,
                        Layout.AreasAt(shmem, n), Layout.AreasAt(shmem + Layout.TotalSize(n), n))
    ensures !ok ==> Mmio.FAILED in Mmio.Track(transport.trace).last
  {
    Layout.AreasFit(shmem, n);
    Layout.AreasFit(shmem + Layout.TotalSize(n), n);
    var rxAreas, txAreas := Layout.AreasAt(shmem, n), Layout.AreasAt(shmem + Layout.TotalSize(n), n);
    console, transport, ok := InitAt(n, rxAreas, txAreas, rxMem, txMem, device);
  }

  /** Nothing has happened on either queue since it was set up, and the pools are where
      the layout puts them. */
  ghost predicate SetUp(console: Console, n: nat, rxAreas: Layout.Areas, txAreas: Layout.Areas)
    reads console.rxBuffer
    reads console.rx, console.rx.vq, console.rx.vq.desc, console.rx.vq.avail, console.rx.vq.used
    reads console.rx.vq.pool, console.rx.vq.pool.mem
    reads console.tx, console.tx.vq, console.tx.vq.desc, console.tx.vq.avail, console.tx.vq.used
    reads console.tx.vq.pool, console.tx.vq.pool.mem
    requires RingSize(n)
  {
    && console.Valid()
    && console.rx.vq.n == console.tx.vq.n == n && console.rx.log == [] && console.tx.log == []
    && console.rx.vq.pool.base == rxAreas.pool && console.tx.vq.pool.base == txAreas.pool
    && console.rx.vq.pool.size == console.tx.vq.pool.size == Layout.PoolSize(n)
  }

  /** So every receive buffer is posted and every transmit descriptor is free. */
  lemma SetUpIsFresh(console: Console, n: nat, rxAreas: Layout.Areas, txAreas: Layout.Areas)
    requires RingSize(n) && SetUp(console, n, rxAreas, txAreas)
    ensures console.rx.vq.State() == PostedUpTo(n, console.rx.pool0, n) && console.tx.vq.Queue() == Fresh(n)
  {
  }

  /** A conversation in which the device has been told where both queues are, and
      which completes the handshake. */
  ghost predicate Told(trace: seq<Mmio.Access>, negotiated: Mmio.Bits, device: Mmio.Device,
                       rxAreas: Layout.Areas, txAreas: Layout.Areas)
  {
    var vqs := [AddrOf(rxAreas), AddrOf(txAreas)];
    trace == Mmio.Conversation(device, vqs) && Mmio.Complete(Mmio.Track(trace), negotiated, vqs)
  }

  /** The same for queues in any two places. */
  method InitAt(n: nat, rxAreas: Layout.Areas, txAreas: Layout.Areas,
                rxMem: array<byte>, txMem: array<byte>, device: Mmio.Device)
    returns (console: Console, transport: Mmio.Transport, ok: bool)
    requires RingSize(n) && AddrOf(rxAreas).Fits() && AddrOf(txAreas).Fits()
    requires rxMem.Length > 2 * Layout.PoolSize(n) && txMem.Length > 2 * Layout.PoolSize(n) && rxMem != txMem
    modifies rxMem, txMem
    ensures console.ready && SetUp(console, n, rxAreas, txAreas)
    ensures ok <==> Mmio.Accepts(device)
    ensures ok ==> Told(transport.trace, transport.negotiated, device, rxAreas, txAreas)
    ensures !ok ==> Mmio.FAILED in Mmio.Track(transport.trace).last
  {
    transport := new Mmio.Transport([AddrOf(rxAreas), AddrOf(txAreas)], device);
    console := Build(n, rxAreas, txAreas, rxMem, txMem);
    ghost var said;
    ok, said := Connect(console, transport, n, rxAreas, txAreas);
  }

  method Build(n: nat, rxAreas: Layout.Areas, txAreas: Layout.Areas, rxMem: array<byte>, txMem: array<byte>)
    returns (console: Console)
    requires RingSize(n)
    requires rxMem.Length > 2 * Layout.PoolSize(n) && txMem.Length > 2 * Layout.PoolSize(n) && rxMem != txMem
    modifies rxMem, txMem
    ensures fresh(console) && SetUp(console, n, rxAreas, txAreas)
  {
    console := new Console(n, rxAreas.pool, rxMem, txAreas.pool, Layout.PoolSize(n), txMem);
  }

  /** The handshake, after which the console is ready in any case. */
  method Connect(console: Console, transport: Mmio.Transport, n: nat, rxAreas: Layout.Areas, txAreas: Layout.Areas)
    returns (ok: bool, ghost said: seq<Mmio.Access>)
    requires RingSize(n) && SetUp(console, n, rxAreas, txAreas)
    requires transport.vqs == [AddrOf(rxAreas), AddrOf(txAreas)] && transport.trace == [] && transport.negotiated == {}
    requires AddrOf(rxAreas).Fits() && AddrOf(txAreas).Fits()
    modifies console`ready, transport
    ensures console.ready && SetUp(console, n, rxAreas, txAreas)
    ensures ok <==> Mmio.Accepts(transport.device)
    ensures transport.trace == said && (ok ==> Told(said, transport.negotiated, transport.device, rxAreas, txAreas))
    ensures !ok ==> Mmio.FAILED in Mmio.Track(said).last
  {
    ok, said := Shake(transport, rxAreas, txAreas);
    console.ready := true;
  }

  method Shake(transport: Mmio.Transport, rxAreas: Layout.Areas, txAreas: Layout.Areas)
    returns (ok: bool, ghost said: seq<Mmio.Access>)
    requires transport.vqs == [AddrOf(rxAreas), AddrOf(txAreas)] && transport.trace == [] && transport.negotiated == {}
    requires AddrOf(rxAreas).Fits() && AddrOf(txAreas).Fits()
    modifies transport
    ensures ok <==> Mmio.Accepts(transport.device)
    ensures transport.trace == said && (ok ==> Told(said, transport.negotiated, transport.device, rxAreas, txAreas))
    ensures !ok ==> Mmio.FAILED in Mmio.Track(said).last
  {
    ok := transport.MmioInit();
    said := transport.trace;
  }
}
