/**
 * The libev side of the C extension, src/extsrc/evLoop.c.  The timer itself
 * is not modelled: arming a timer is a no-op here, and the callback is a
 * method a caller invokes when the timer fires.  Each operation acts on the
 * descriptor at the global logNdx, whatever index it was given.
 */
module EvLoop {
  import opened Common
  import opened CLogState

  /** setupLibEvAndCallbacks: arms the first timer for slot ndx; always succeeds. */
  function SetupLibEvAndCallbacks(ndx: int): int
  {
    0
  }

  /**
   * What timedWriterCB does to a descriptor: WRITE_PENDING is cleared
   * whether or not there is anything to write.  If the page in use holds
   * bytes, they are appended to the file, WRITE_IN_PROGRESS is clear again,
   * that page becomes READY and empty and bufInUse moves to the next page
   * (whether or not that page is READY).  Otherwise nothing else changes.
   * fd and count are never touched.
   */
  twostate predicate Flushed(d: LogDesc)
    requires old(d.Valid())
    reads d, d.logBufDescs
  {
    var b := old(d.bufInUse);
    d.fd == old(d.fd) && d.count == old(d.count) &&
    (old(d.logBufDescs[b].offset) > 0 ==>
      d.writeFlags == old(d.writeFlags) & !WRITE_PENDING & !WRITE_IN_PROGRESS &&
      d.file == old(d.file) + old(d.logBuffers[d.logBufDescs[b].data..d.logBufDescs[b].data + d.logBufDescs[b].offset]) &&
      d.bufInUse == (b + 1) % C_FT_LOG_BUF_COUNT &&
      d.logBufDescs[..] == old(d.logBufDescs[..])[b := old(d.logBufDescs[b]).(offset := 0, flags := READY_BUF)]) &&
    (old(d.logBufDescs[b].offset) == 0 ==>
      d.writeFlags == old(d.writeFlags) & !WRITE_PENDING &&
      d.file == old(d.file) && d.bufInUse == b && d.logBufDescs[..] == old(d.logBufDescs[..]))
  }

  /**
   * timedWriterCB: flushes the descriptor at logNdx, whatever watcher it is
   * called for; the watcher argument is ignored, as in the C code.
   */
  method TimedWriterCB(g: Globals, watcher: int)
    requires g.Shaped() && g.Live(g.logNdx)
    modifies g.logDescs[g.logNdx], g.logDescs[g.logNdx].logBufDescs
    ensures g.Live(g.logNdx) && Flushed(g.logDescs[g.logNdx])
  {
    var d := g.logDescs[g.logNdx];
    FlushInUse(d);
  }

  /**
   * The body of timedWriterCB on one descriptor.  Errors from write and
   * fsync are only reported, so the file always receives the bytes.
   */
  method FlushInUse(d: LogDesc)
    requires d.Valid()
    modifies d, d.logBufDescs
    ensures d.Valid() && Flushed(d)
  {
    d.writeFlags := d.writeFlags & !WRITE_PENDING;
    var b := d.bufInUse;
    var p := d.logBufDescs[b];
    if p.offset > 0 {
      // The page is BEING_WRITTEN and WRITE_IN_PROGRESS is set while the
      // bytes go out; with no other thread, only the final state is seen.
      d.bufInUse := (b + 1) % C_FT_LOG_BUF_COUNT;
      d.file := d.file + d.logBuffers[p.data..p.data + p.offset];
      d.logBufDescs[b] := p.(flags := READY_BUF, offset := 0);
      d.writeFlags := d.writeFlags & !WRITE_IN_PROGRESS;
      assert d.logBufDescs[..] == old(d.logBufDescs[..])[b := p.(offset := 0, flags := READY_BUF)];
    } else {
      assert d.logBufDescs[..] == old(d.logBufDescs[..]);
    }
  }

  /**
   * scheduleWrite: if no write is pending on the descriptor at logNdx, arms
   * its timer and sets WRITE_PENDING; otherwise changes nothing.  Returns 0.
   */
  method ScheduleWrite(g: Globals, ndx: int) returns (status: int)
    requires g.Shaped() && 0 <= g.logNdx < CLOG_MAX_LOG && g.logDescs[g.logNdx] != null
    modifies g.logDescs[g.logNdx]
    ensures status == 0
    ensures var d := g.logDescs[g.logNdx];
      d.fd == old(d.fd) && d.count == old(d.count) && d.bufInUse == old(d.bufInUse) && d.file == old(d.file)
    ensures var d := g.logDescs[g.logNdx]; d.writeFlags & WRITE_PENDING == WRITE_PENDING
    ensures var d := g.logDescs[g.logNdx]; d.writeFlags & !WRITE_PENDING == old(d.writeFlags) & !WRITE_PENDING
  {
    var d := g.logDescs[g.logNdx];
    if d.writeFlags & WRITE_PENDING == 0 {
      d.writeFlags := d.writeFlags | WRITE_PENDING;
    }
    status := 0;
  }
}
