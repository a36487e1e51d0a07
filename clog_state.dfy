/**
 * The state of the C extension behind the fault-tolerant log
 * (src/extsrc/cFTLogForPy.h): per open log, a descriptor holding a ring of
 * four pages of LOG_BUFFER_SIZE bytes, and the global table of descriptors
 * indexed by logNdx.  Mutexes, the libev timer and the writer thread are not
 * part of this model; every operation runs alone.
 */
module CLogState {
  import opened Common

  /** Maximum number of open log files. */
  const CLOG_MAX_LOG := 16
  const LOG_BUFFER_SIZE := 4 * 4096
  /** Page states. */
  const ACTIVE_BUF := 1
  const FULL_BUF := 2
  const BEING_WRITTEN := 3
  const READY_BUF := 4
  const MAX_PATH_LEN := 256
  /** Pages per log. */
  const C_FT_LOG_BUF_COUNT := 4
  /** Bits of writeFlags. */
  const WRITE_PENDING: bv32 := 1
  const WRITE_IN_PROGRESS: bv32 := 2
  /** The value of errno's ENAMETOOLONG on Linux. */
  const ENAMETOOLONG := 36
  /** What checkDir returns: 0 if the directory is there or was made, a negative number otherwise. */
  type DirStatus = x: int | x <= 0

  /** u_int32_t counters wrap at 2^32. */
  const UINT32_MOD := 0x1_0000_0000

  /**
   * logBufDesc_t.  data is where the page starts in the descriptor's
   * logBuffers, offset the first free byte, pageBytes its size, flags its
   * state.
   */
  datatype Page = Page(data: int, offset: int, pageBytes: int, flags: int)

  /** Page i as laid out by initLogBuffers, holding offset bytes and in some state. */
  predicate PageOk(p: Page, i: int)
  {
    p.data == i * LOG_BUFFER_SIZE && p.pageBytes == LOG_BUFFER_SIZE &&
    0 <= p.offset < LOG_BUFFER_SIZE && ACTIVE_BUF <= p.flags <= READY_BUF
  }

  /** cFTLogDesc_t: one open log. */
  class LogDesc {
    const logBufDescs: array<Page>
    const logBuffers: array<byte>
    const logDir: string
    const logName: string
    /** A u_int32_t: holds open()'s result modulo 2^32. */
    var fd: int
    /** Number of messages written, a u_int32_t. */
    var count: int
    var writeFlags: bv32
    /** The page in use. */
    var bufInUse: int
    /** The bytes written to fd so far. */
    ghost var file: seq<byte>

    /** cLogAllocInit: a zero-filled descriptor carrying the two names. */
    constructor (logDir: string, logName: string)
      ensures fresh(logBufDescs) && fresh(logBuffers)
      ensures Shaped()
      ensures forall i :: 0 <= i < logBufDescs.Length ==> logBufDescs[i] == Page(0, 0, 0, 0)
      ensures this.logDir == logDir && this.logName == logName
      ensures fd == 0 && count == 0 && writeFlags == 0 && bufInUse == 0 && file == []
    {
      logBufDescs := new Page[C_FT_LOG_BUF_COUNT](_ => Page(0, 0, 0, 0));
      logBuffers := new byte[C_FT_LOG_BUF_COUNT * LOG_BUFFER_SIZE];
      this.logDir := logDir;
      this.logName := logName;
      fd := 0;
      count := 0;
      writeFlags := 0;
      bufInUse := 0;
      file := [];
    }

    /** The two arrays have the sizes the C struct declares. */
    predicate Shaped()
    {
      logBufDescs.Length == C_FT_LOG_BUF_COUNT &&
      logBuffers.Length == C_FT_LOG_BUF_COUNT * LOG_BUFFER_SIZE
    }

    /**
     * The ring after initLogBuffers: every page laid out in its own stretch
     * of logBuffers, bufInUse a page, and a READY page other than the one in
     * use empty.
     */
    ghost predicate Valid()
      reads this, logBufDescs
    {
      Shaped() && 0 <= bufInUse < C_FT_LOG_BUF_COUNT &&
      (forall i :: 0 <= i < C_FT_LOG_BUF_COUNT ==> PageOk(logBufDescs[i], i)) &&
      (forall i :: 0 <= i < C_FT_LOG_BUF_COUNT && i != bufInUse && logBufDescs[i].flags == READY_BUF ==>
        logBufDescs[i].offset == 0)
    }

    /** The bytes page i holds: data[0..offset). */
    ghost function Held(i: int): seq<byte>
      requires Valid() && 0 <= i < C_FT_LOG_BUF_COUNT
      reads this, logBufDescs, logBuffers
    {
      logBuffers[logBufDescs[i].data..logBufDescs[i].data + logBufDescs[i].offset]
    }
  }

  /** The globals logNdx, logDescs and secondThreadStarted. */
  class Globals {
    /** One less than the number of logs open. */
    var logNdx: int
    const logDescs: array<LogDesc?>
    var secondThreadStarted: bool

    /** C statics start zeroed. */
    constructor ()
      ensures fresh(logDescs) && Shaped()
      ensures forall i :: 0 <= i < logDescs.Length ==> logDescs[i] == null
      ensures logNdx == 0 && !secondThreadStarted
    {
      logDescs := new LogDesc?[CLOG_MAX_LOG](_ => null);
      logNdx := 0;
      secondThreadStarted := false;
    }

    /** The table has CLOG_MAX_LOG slots and every descriptor in it has the struct's sizes. */
    predicate Shaped()
      reads logDescs
    {
      logDescs.Length == CLOG_MAX_LOG &&
      forall i :: 0 <= i < logDescs.Length && logDescs[i] != null ==> logDescs[i].Shaped()
    }

    /** No two slots share a descriptor or its arrays: each came from its own allocation. */
    predicate Distinct()
      reads logDescs
    {
      forall i, j :: 0 <= i < j < logDescs.Length && logDescs[i] != null && logDescs[j] != null ==>
        logDescs[i] != logDescs[j] && logDescs[i].logBufDescs != logDescs[j].logBufDescs &&
        logDescs[i].logBuffers != logDescs[j].logBuffers
    }

    /** Slot i holds a descriptor whose ring is laid out. */
    ghost predicate Live(i: int)
      reads logDescs, if 0 <= i < logDescs.Length && logDescs[i] != null then {logDescs[i], logDescs[i].logBufDescs} else {}
    {
      0 <= i < logDescs.Length && logDescs[i] != null && logDescs[i].Valid()
    }
  }
}
