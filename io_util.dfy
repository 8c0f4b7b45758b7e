/**
 * The storage helpers of the wiper: the unit buffer, the volume sizes derived
 * from the file-system statistics, the sink a data file is written through,
 * and the writer of one file of random data (IOUtil.java).
 */
module IOUtil {
  import opened Wrappers

  /** The unit buffer: 1 MiB. Every file is written as whole unit buffers. */
  const IO_BUFFER_SIZE: nat := 1024 * 1024

  /** A file receives `nextInt(90) + 10` buffers: between 10 and 99. */
  const RANDOM_BOUND: nat := 90
  const MIN_BUFFER_COUNT: nat := 10
  const MAX_BUFFER_COUNT: nat := RANDOM_BOUND - 1 + MIN_BUFFER_COUNT

  /** The smallest and largest size a file written without fault has. */
  const MIN_FILE_SIZE: nat := MIN_BUFFER_COUNT * IO_BUFFER_SIZE
  const MAX_FILE_SIZE: nat := MAX_BUFFER_COUNT * IO_BUFFER_SIZE

  // ---------------------------------------------------------------------------
  // Volume sizes
  // ---------------------------------------------------------------------------

  /** What the file-system statistics report about the external storage volume. */
  datatype StatFs = StatFs(blockSize: nat, blockCount: nat, availableBlocks: nat)

  /** The volume has no more free blocks than blocks. */
  predicate Consistent(stat: StatFs) {
    stat.availableBlocks <= stat.blockCount
  }

  /** The size of the volume in bytes; empty exactly when it has no blocks or blocks of no size. */
  function StorageTotalSize(stat: StatFs): (bytes: nat)
    ensures bytes == 0 <==> stat.blockSize == 0 || stat.blockCount == 0
  {
    stat.blockSize * stat.blockCount
  }

  /** The free space of the volume in bytes; none exactly when no block of any size is free. */
  function StorageAvailableSize(stat: StatFs): (bytes: nat)
    ensures bytes == 0 <==> stat.blockSize == 0 || stat.availableBlocks == 0
  {
    stat.blockSize * stat.availableBlocks
  }

  /**
   * On a consistent snapshot the free space never exceeds the volume size, and
   * the space in use is a whole number of blocks.
   */
  lemma {:induction false} AvailableWithinTotal(stat: StatFs)
    requires Consistent(stat)
    ensures StorageAvailableSize(stat) <= StorageTotalSize(stat)
    ensures StorageTotalSize(stat) - StorageAvailableSize(stat) == stat.blockSize * (stat.blockCount - stat.availableBlocks)
  {
  }

  // ---------------------------------------------------------------------------
  // Writing one data file
  // ---------------------------------------------------------------------------

  /** The failure, if any, that one file write meets. */
  datatype IoFault =
    | NoFault
      /** the file cannot be opened for writing */
    | OpenFault
      /** the write of buffer number `at` (from 0) throws: disk full or an I/O error */
    | WriteFault(at: nat)

  /**
   * A buffered sink on a newly created file. `failAt` and `closeThrows` are the
   * environment's answers: the write that throws, and whether closing throws.
   */
  class Sink {
    const failAt: Option<nat>
    const closeThrows: bool
    var buffers: nat
    var closed: bool

    constructor Open(failAt: Option<nat>, closeThrows: bool)
      ensures this.failAt == failAt && this.closeThrows == closeThrows
      ensures buffers == 0 && !closed
    {
      this.failAt := failAt;
      this.closeThrows := closeThrows;
      buffers := 0;
      closed := false;
    }

    /** Writes one unit buffer; `thrown` stands for the exception of a failed write. */
    method Write() returns (thrown: bool)
      requires !closed
      modifies this`buffers
      ensures thrown <==> failAt == Some(old(buffers))
      ensures buffers == if thrown then old(buffers) else old(buffers) + 1
    {
      thrown := failAt == Some(buffers);
      if !thrown {
        buffers := buffers + 1;
      }
    }

    /** Closes the sink; it ends up closed even when closing throws. A second close does nothing. */
    method Close() returns (thrown: bool)
      modifies this`closed
      ensures closed
      ensures thrown <==> closeThrows && !old(closed)
    {
      thrown := closeThrows && !closed;
      closed := true;
    }
  }

  /** Closes `c` if there is one; a failure to close is swallowed, never reported. */
  method CloseSilently(c: Sink?)
    modifies c
    ensures c != null ==> c.closed && c.buffers == old(c.buffers)
  {
    if c == null {
      return;
    }
    var _ := c.Close();
  }

  /**
   * The number of bytes counted for a file of `draw + 10` buffers that meets
   * `fault`: only the buffers whose write completed are counted.
   */
  function FileSize(draw: nat, fault: IoFault): (size: nat)
    requires draw < RANDOM_BOUND
    ensures size % IO_BUFFER_SIZE == 0
    ensures size <= (draw + MIN_BUFFER_COUNT) * IO_BUFFER_SIZE <= MAX_FILE_SIZE
    ensures fault == NoFault ==> size == (draw + MIN_BUFFER_COUNT) * IO_BUFFER_SIZE && MIN_FILE_SIZE <= size
    ensures fault == OpenFault ==> size == 0
  {
    var count := draw + MIN_BUFFER_COUNT;
    match fault
    case NoFault => count * IO_BUFFER_SIZE
    case OpenFault => 0
    case WriteFault(at) => (if at < count then at else count) * IO_BUFFER_SIZE
  }

  /**
   * Writes one file of `draw + 10` random unit buffers and returns the bytes
   * counted. `draw` is the value of `nextInt(90)`; exceptions are swallowed, so
   * a fault only shortens the count, down to 0. `sink` is the sink the method
   * opened, if any: whatever happened, it is closed when the method returns.
   */
  method WriteRandomDataFile(draw: nat, fault: IoFault, closeThrows: bool) returns (size: nat, ghost sink: Sink?)
    requires draw < RANDOM_BOUND
    ensures size == FileSize(draw, fault)
    ensures fault.WriteFault? ==> size == (if fault.at < draw + MIN_BUFFER_COUNT then fault.at else draw + MIN_BUFFER_COUNT) * IO_BUFFER_SIZE
    ensures fault == OpenFault <==> sink == null
    ensures sink != null ==> fresh(sink) && sink.closed && sink.buffers * IO_BUFFER_SIZE == size
  {
    var buffer: Sink? := null;
    size := 0;
    if fault != OpenFault {
      buffer := new Sink.Open(if fault.WriteFault? then Some(fault.at) else None, closeThrows);
      var randomCount := draw + MIN_BUFFER_COUNT;
      var i := 0;
      while i < randomCount
        invariant i <= randomCount
        invariant size == i * IO_BUFFER_SIZE
        invariant buffer.buffers == i && !buffer.closed
        invariant buffer.failAt == (if fault.WriteFault? then Some(fault.at) else None)
        invariant fault.WriteFault? ==> i <= fault.at
      {
        var thrown := buffer.Write();
        if thrown {
          break;
        }
        size := size + IO_BUFFER_SIZE;
        i := i + 1;
      }
    }
    CloseSilently(buffer);
    sink := buffer;
  }
}
