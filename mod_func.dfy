/**
 * The module functions of the C extension, src/extsrc/modFunc.c: starting
 * the logger, opening a log, writing a message into a log's pages and
 * closing everything.  The writer thread, the libev loop and the sleeps
 * are not modelled; fsync, close and open() are oracles given as
 * parameters.
 */
module ModFunc {
  import opened Common
  import opened CLogState
  import opened LogBufs
  import opened EvLoop

  /** buf with bytes at..at+|msg| replaced by msg. */
  function Splice(buf: seq<byte>, at: int, msg: seq<byte>): (r: seq<byte>)
    requires 0 <= at && at + |msg| <= |buf|
    ensures |r| == |buf| && r[at..at + |msg|] == msg
    ensures forall i :: 0 <= i < |buf| && !(at <= i < at + |msg|) ==> r[i] == buf[i]
  {
    buf[..at] + msg + buf[at + |msg|..]
  }

  /** A message of len bytes does not fit into what is left of page p. */
  predicate Overflows(p: Page, len: int)
  {
    p.offset + len >= p.pageBytes
  }

  /** Some page other than the one in use is READY. */
  ghost predicate SpareReady(d: LogDesc)
    reads d, d.logBufDescs
    requires d.Valid()
  {
    exists j :: 0 <= j < C_FT_LOG_BUF_COUNT && j != d.bufInUse && d.logBufDescs[j].flags == READY_BUF
  }

  /** The page m steps after b round the ring. */
  function RingAt(b: int, m: int): int
  {
    (b + m) % C_FT_LOG_BUF_COUNT
  }

  /**
   * j is the first READY page after b going round the ring: every page
   * strictly between them is not READY.
   */
  ghost predicate FirstReadyAfter(pages: seq<Page>, b: int, j: int)
    requires |pages| == C_FT_LOG_BUF_COUNT && 0 <= b < C_FT_LOG_BUF_COUNT
  {
    0 <= j < C_FT_LOG_BUF_COUNT && j != b && pages[j].flags == READY_BUF &&
    forall m :: 1 <= m < (j - b) % C_FT_LOG_BUF_COUNT ==> pages[RingAt(b, m)].flags != READY_BUF
  }

  /** Going round a ring of four from b, j != b is reached after (j - b) % 4 steps. */
  lemma RingDistance(b: int, j: int)
    requires 0 <= b < C_FT_LOG_BUF_COUNT && 0 <= j < C_FT_LOG_BUF_COUNT && j != b
    ensures 1 <= (j - b) % C_FT_LOG_BUF_COUNT < C_FT_LOG_BUF_COUNT
    ensures RingAt(b, (j - b) % C_FT_LOG_BUF_COUNT) == j
  {
  }

  /** One more step round the ring. */
  lemma RingStep(b: int, k: int)
    requires 0 <= b < C_FT_LOG_BUF_COUNT && 0 <= k
    ensures 0 <= RingAt(b, k) < C_FT_LOG_BUF_COUNT
    ensures RingAt(b, k + 1) == (RingAt(b, k) + 1) % C_FT_LOG_BUF_COUNT
  {
  }

  /** k steps round the ring from b, for 0 < k < 4, lead to a page other than b, k steps away. */
  lemma RingBack(b: int, k: int)
    requires 0 <= b < C_FT_LOG_BUF_COUNT && 1 <= k < C_FT_LOG_BUF_COUNT
    ensures RingAt(b, k) != b && (RingAt(b, k) - b) % C_FT_LOG_BUF_COUNT == k
  {
  }

  /** Marking page b does not change which page is the first READY one after it. */
  lemma FirstReadyIgnoresStart(pages: seq<Page>, b: int, x: Page, j: int)
    requires |pages| == C_FT_LOG_BUF_COUNT && 0 <= b < C_FT_LOG_BUF_COUNT
    requires FirstReadyAfter(pages[b := x], b, j)
    ensures FirstReadyAfter(pages, b, j)
  {
    forall m | 1 <= m < (j - b) % C_FT_LOG_BUF_COUNT
      ensures pages[RingAt(b, m)].flags != READY_BUF
    {
      assert RingAt(b, m) != b;
    }
  }

  /**
   * The search of _log_msg: from the page after b, round the ring until a
   * READY page.  Some page other than b must be READY.
   */
  method NextReady(pages: array<Page>, b: int) returns (n: int)
    requires pages.Length == C_FT_LOG_BUF_COUNT && 0 <= b < C_FT_LOG_BUF_COUNT
    requires exists j :: 0 <= j < C_FT_LOG_BUF_COUNT && j != b && pages[j].flags == READY_BUF
    ensures FirstReadyAfter(pages[..], b, n)
  {
    ghost var j :| 0 <= j < C_FT_LOG_BUF_COUNT && j != b && pages[j].flags == READY_BUF;
    RingDistance(b, j);
    n := (b + 1) % C_FT_LOG_BUF_COUNT;
    ghost var k := 1;
    while pages[n].flags != READY_BUF
      invariant 1 <= k <= (j - b) % C_FT_LOG_BUF_COUNT
      invariant n == RingAt(b, k)
      invariant forall m :: 1 <= m < k ==> pages[RingAt(b, m)].flags != READY_BUF
      decreases C_FT_LOG_BUF_COUNT - k
    {
      assert k != (j - b) % C_FT_LOG_BUF_COUNT;
      RingStep(b, k);
      n := (n + 1) % C_FT_LOG_BUF_COUNT;
      k := k + 1;
    }
    RingBack(b, k);
  }

  /**
   * The overflow step of _log_msg: the page in use becomes FULL and bufInUse
   * moves to the first READY page after it, which is empty.
   */
  method Rotate(d: LogDesc)
    requires d.Valid() && SpareReady(d)
    modifies d`bufInUse, d.logBufDescs
    ensures d.Valid()
    ensures var b := old(d.bufInUse);
      FirstReadyAfter(old(d.logBufDescs[..]), b, d.bufInUse) &&
      d.logBufDescs[..] == old(d.logBufDescs[..])[b := old(d.logBufDescs[b]).(flags := FULL_BUF)] &&
      d.logBufDescs[d.bufInUse].offset == 0
  {
    var b := d.bufInUse;
    var p := d.logBufDescs[b];
    ghost var j :| 0 <= j < C_FT_LOG_BUF_COUNT && j != b && d.logBufDescs[j].flags == READY_BUF;
    d.logBufDescs[b] := p.(flags := FULL_BUF);
    assert d.logBufDescs[j].flags == READY_BUF;
    var n := NextReady(d.logBufDescs, b);
    FirstReadyIgnoresStart(old(d.logBufDescs[..]), b, p.(flags := FULL_BUF), n);
    d.bufInUse := n;
  }

  /** The copy of _log_msg: msg goes at the end of page n, whose offset grows by |msg|. */
  method PutAt(d: LogDesc, n: int, msg: seq<byte>)
    requires d.Shaped() && 0 <= n < C_FT_LOG_BUF_COUNT && PageOk(d.logBufDescs[n], n)
    requires d.logBufDescs[n].offset + |msg| < LOG_BUFFER_SIZE
    modifies d.logBufDescs, d.logBuffers
    ensures var p := old(d.logBufDescs[n]);
      d.logBufDescs[..] == old(d.logBufDescs[..])[n := p.(offset := p.offset + |msg|)] &&
      d.logBuffers[..] == Splice(old(d.logBuffers[..]), p.data + p.offset, msg)
  {
    var p := d.logBufDescs[n];
    forall i | 0 <= i < |msg| {
      d.logBuffers[p.data + p.offset + i] := msg[i];
    }
    d.logBufDescs[n] := p.(offset := p.offset + |msg|);
  }

  /**
   * What _log_msg does to a descriptor: count goes up by one modulo 2^32;
   * fd, the file and writeFlags stay.  A message that fits is copied after
   * the bytes of the page in use, whose offset grows by its length.  One
   * that does not fit marks that page FULL, moves bufInUse to the first
   * READY page after it and copies the message to the start of that page.
   */
  twostate predicate Logged(d: LogDesc, msg: seq<byte>)
    requires old(d.Valid())
    requires |msg| < LOG_BUFFER_SIZE
    reads d, d.logBufDescs, d.logBuffers
  {
    var b := old(d.bufInUse); var p := old(d.logBufDescs[..])[b];
    d.count == (old(d.count) + 1) % UINT32_MOD &&
    d.fd == old(d.fd) && d.file == old(d.file) && d.writeFlags == old(d.writeFlags) &&
    (!Overflows(p, |msg|) ==>
      d.bufInUse == b &&
      d.logBufDescs[..] == old(d.logBufDescs[..])[b := p.(offset := p.offset + |msg|)] &&
      d.logBuffers[..] == Splice(old(d.logBuffers[..]), p.data + p.offset, msg)) &&
    (Overflows(p, |msg|) ==>
      FirstReadyAfter(old(d.logBufDescs[..]), b, d.bufInUse) &&
      d.logBufDescs[..] == old(d.logBufDescs[..])[b := p.(flags := FULL_BUF)]
                             [d.bufInUse := old(d.logBufDescs[..])[d.bufInUse].(offset := |msg|)] &&
      d.logBuffers[..] == Splice(old(d.logBuffers[..]), d.bufInUse * LOG_BUFFER_SIZE, msg))
  }

  /**
   * _log_msg on the descriptor logDescs[ndx]: a message that fits goes at the
   * end of the page in use.  One that does not marks that page FULL, moves
   * bufInUse round the ring to the first READY page and goes at its start.
   * The count of messages steps, wrapping at 2^32.  The message must be
   * shorter than a page, and a spare READY page must exist when one is
   * needed: otherwise the C search loops for ever.
   */
  method LogMsgAt(d: LogDesc, msg: seq<byte>)
    requires d.Valid()
    requires |msg| < LOG_BUFFER_SIZE
    requires Overflows(d.logBufDescs[d.bufInUse], |msg|) ==> SpareReady(d)
    modifies d, d.logBufDescs, d.logBuffers
    ensures d.Valid() && Logged(d, msg)
  {
    var p := d.logBufDescs[d.bufInUse];
    if p.offset + |msg| >= p.pageBytes {
      Rotate(d);
      ghost var q := d.logBufDescs[d.bufInUse];
      assert q == old(d.logBufDescs[..])[d.bufInUse] && q.(offset := q.offset + |msg|) == q.(offset := |msg|);
    }
    ghost var before := d.logBufDescs[..];
    PutAt(d, d.bufInUse, msg);
    assert forall i :: 0 <= i < C_FT_LOG_BUF_COUNT && i != d.bufInUse ==> d.logBufDescs[i] == before[i];
    d.count := (d.count + 1) % UINT32_MOD;
  }

  /** log_msg(ndx, msg): a present message goes to _log_msg; a NULL one changes nothing. */
  method LogMsg(g: Globals, ndx: int, msg: Option<seq<byte>>)
    requires g.Shaped() && g.Live(ndx)
    requires msg.Some? ==> |msg.value| < LOG_BUFFER_SIZE
    requires msg.Some? && Overflows(g.logDescs[ndx].logBufDescs[g.logDescs[ndx].bufInUse], |msg.value|) ==>
      SpareReady(g.logDescs[ndx])
    modifies g.logDescs[ndx], g.logDescs[ndx].logBufDescs, g.logDescs[ndx].logBuffers
    ensures g.Live(ndx)
    ensures msg.None? ==> unchanged(g.logDescs[ndx], g.logDescs[ndx].logBufDescs, g.logDescs[ndx].logBuffers)
    ensures msg.Some? ==> Logged(g.logDescs[ndx], msg.value)
  {
    if msg.Some? {
      LogMsgAt(g.logDescs[ndx], msg.value);
    }
  }

  /**
   * init_cft_logger: logNdx -1, an empty table, and secondThreadStarted set
   * when the writer thread starts; writerStatus is what writerInitThreaded
   * returns, and is returned.
   */
  method InitCftLogger(g: Globals, writerStatus: int) returns (status: int)
    requires g.Shaped()
    modifies g, g.logDescs
    ensures g.Shaped() && g.Distinct()
    ensures g.logNdx == -1 && forall i :: 0 <= i < CLOG_MAX_LOG ==> g.logDescs[i] == null
    ensures status == writerStatus && (g.secondThreadStarted <==> writerStatus == 0)
  {
    g.logNdx := -1;
    g.secondThreadStarted := false;
    status := 0;
    InitLogDescs(g);
    status := writerStatus;
    if status == 0 {
      g.secondThreadStarted := true;
    }
  }

  /**
   * What _open_cft_log can come to as written: an index, a negative status,
   * or a dereference of the NULL slot inside initLogBuffers.
   */
  datatype OpenOutcome = Opened(ndx: int) | Failed(status: int) | NullDeref

  /** The page array of slot k, if it holds a descriptor. */
  function SlotPages(g: Globals, k: int): set<object>
    reads g.logDescs
  {
    if 0 <= k < g.logDescs.Length && g.logDescs[k] != null then {g.logDescs[k].logBufDescs} else {}
  }

  /**
   * The rest of _open_cft_log once openLogFile has returned fd, logNdx
   * already stepped: a negative fd is a failure and steps logNdx back;
   * otherwise the pages of slot logNdx are laid out and its timer armed.
   */
  method FinishOpen(g: Globals, fd: int) returns (r: OpenOutcome)
    requires g.Shaped() && 0 <= g.logNdx < CLOG_MAX_LOG
    modifies g`logNdx, SlotPages(g, g.logNdx)
    ensures fd < 0 ==> r == Failed(-1) && g.logNdx == old(g.logNdx) - 1
    ensures fd >= 0 && g.logDescs[old(g.logNdx)] == null ==> r == NullDeref && g.logNdx == old(g.logNdx)
    ensures fd >= 0 && g.logDescs[old(g.logNdx)] != null ==>
      r == Opened(g.logNdx) && g.logNdx == old(g.logNdx) &&
      (forall i :: 0 <= i < C_FT_LOG_BUF_COUNT ==> g.logDescs[g.logNdx].logBufDescs[i] == InitialPage(i)) &&
      (0 <= g.logDescs[g.logNdx].bufInUse < C_FT_LOG_BUF_COUNT ==> g.Live(g.logNdx))
  {
    var status := 0;
    if fd < 0 {
      status := -1;
    }
    if status == 0 {
      if g.logDescs[g.logNdx] == null {
        return NullDeref;
      }
      status := InitLogBuffers(g, g.logNdx);
    }
    if status == 0 {
      status := SetupLibEvAndCallbacks(g.logNdx);
    }
    if status < 0 {
      g.logNdx := g.logNdx - 1;
      return Failed(status);
    }
    return Opened(g.logNdx);
  }

  /** A path openLogFile rejects with ENAMETOOLONG. */
  predicate TooLong(pathToLog: Option<string>)
  {
    pathToLog.Some? && |pathToLog.value| > MAX_PATH_LEN
  }

  /**
   * _open_cft_log as written: it steps logNdx and treats any non-negative
   * result of openLogFile as a descriptor.  So a path longer than
   * MAX_PATH_LEN, for which openLogFile returns ENAMETOOLONG and installs
   * nothing, dereferences an empty slot, or reopens the stale descriptor
   * an earlier failed open left there.  A failed open() still leaves its
   * new descriptor in the slot.
   */
  method OpenCftLog(g: Globals, pathToLog: Option<string>, checkDir: string -> DirStatus, openFd: int)
    returns (r: OpenOutcome)
    requires g.Shaped() && -1 <= g.logNdx < CLOG_MAX_LOG - 1
    modifies g`logNdx, g.logDescs, SlotPages(g, g.logNdx + 1)
    ensures g.Shaped() && (old(g.Distinct()) ==> g.Distinct())
    ensures forall i :: 0 <= i <= old(g.logNdx) ==> g.logDescs[i] == old(g.logDescs[i])
    ensures TooLong(pathToLog) && old(g.logDescs[g.logNdx + 1]) == null ==> r == NullDeref
    ensures forall i :: old(g.logNdx) + 1 < i < CLOG_MAX_LOG ==> g.logDescs[i] == old(g.logDescs[i])
    ensures TooLong(pathToLog) && old(g.logDescs[g.logNdx + 1]) != null ==>
      r == Opened(old(g.logNdx) + 1) && g.logNdx == r.ndx && g.logDescs[r.ndx] == old(g.logDescs[g.logNdx + 1]) &&
      unchanged(g.logDescs[r.ndx]) &&
      (forall i :: 0 <= i < C_FT_LOG_BUF_COUNT ==> g.logDescs[r.ndx].logBufDescs[i] == InitialPage(i)) &&
      (0 <= g.logDescs[r.ndx].bufInUse < C_FT_LOG_BUF_COUNT ==> g.Live(r.ndx))
    ensures !TooLong(pathToLog) && !PathAccepted(pathToLog, checkDir) ==>
      r == Failed(-1) && g.logNdx == old(g.logNdx) && g.logDescs[..] == old(g.logDescs[..])
    ensures PathAccepted(pathToLog, checkDir) && openFd < 0 ==>
      r == Failed(-1) && g.logNdx == old(g.logNdx) &&
      g.logDescs[old(g.logNdx) + 1] != null &&
      var d := g.logDescs[old(g.logNdx) + 1];
      fresh(d) && fresh(d.logBufDescs) && fresh(d.logBuffers) &&
      d.logDir == DirOf(pathToLog.value) && d.logName == NameOf(pathToLog.value) &&
      d.fd == openFd % UINT32_MOD && d.count == 0 && d.writeFlags == 0 && d.bufInUse == 0 && d.file == []
    ensures PathAccepted(pathToLog, checkDir) && openFd >= 0 ==>
      r == Opened(old(g.logNdx) + 1) && g.logNdx == r.ndx && g.Live(r.ndx) &&
      var d := g.logDescs[r.ndx];
      fresh(d) && fresh(d.logBufDescs) && fresh(d.logBuffers) &&
      d.logDir == DirOf(pathToLog.value) && d.logName == NameOf(pathToLog.value) &&
      d.fd == openFd % UINT32_MOD && d.count == 0 && d.bufInUse == 0 && d.file == [] &&
      forall i :: 0 <= i < C_FT_LOG_BUF_COUNT ==> d.logBufDescs[i] == InitialPage(i)
  {
    g.logNdx := g.logNdx + 1;
    var fd := OpenLogFile(g, pathToLog, checkDir, openFd);
    if pathToLog.Some? && |pathToLog.value| <= MAX_PATH_LEN && '/' in pathToLog.value {
      // checkDirs fails only with checkDir's negative status.
      WalkVerdict(DirOf(pathToLog.value), checkDir, 1);
    }
    r := FinishOpen(g, fd);
  }

  /**
   * _open_cft_log over openLogFile as documented: a non-negative result is
   * old logNdx + 1 with a fresh, laid out descriptor in that slot, and any
   * failure gives -1 with logNdx restored.
   */
  method OpenCftLogChecked(g: Globals, pathToLog: Option<string>, checkDir: string -> DirStatus, openFd: int)
    returns (status: int)
    requires g.Shaped() && -1 <= g.logNdx < CLOG_MAX_LOG - 1
    modifies g`logNdx, g.logDescs
    ensures g.Shaped() && (old(g.Distinct()) ==> g.Distinct())
    ensures forall i :: 0 <= i <= old(g.logNdx) ==> g.logDescs[i] == old(g.logDescs[i])
    ensures status >= 0 <==> PathAccepted(pathToLog, checkDir) && openFd >= 0
    ensures status < 0 ==> status == -1 && g.logNdx == old(g.logNdx)
    ensures status >= 0 ==>
      status == old(g.logNdx) + 1 && g.logNdx == status && g.Live(status) &&
      var d := g.logDescs[status];
      fresh(d) && fresh(d.logBufDescs) && fresh(d.logBuffers) &&
      d.logDir == DirOf(pathToLog.value) && d.logName == NameOf(pathToLog.value) &&
      d.fd == openFd % UINT32_MOD && d.count == 0 && d.bufInUse == 0 && d.file == [] &&
      forall i :: 0 <= i < C_FT_LOG_BUF_COUNT ==> d.logBufDescs[i] == InitialPage(i)
  {
    g.logNdx := g.logNdx + 1;
    var fd := OpenLogFileChecked(g, pathToLog, checkDir, openFd);
    if fd < 0 {
      g.logNdx := g.logNdx - 1;
      return -1;
    }
    var r := FinishOpen(g, fd);
    status := if r.Opened? then r.ndx else -1;
  }

  /**
   * A first open of a path of 257 characters, through init_cft_logger and
   * _open_cft_log as written, dereferences NULL.
   */
  method LongPathCrashes(checkDir: string -> DirStatus, openFd: int) returns (r: OpenOutcome)
    ensures r == NullDeref
  {
    var g := new Globals();
    var status := InitCftLogger(g, 0);
    r := OpenCftLog(g, Some(seq(257, _ => 'a')), checkDir, openFd);
  }

  /**
   * The status the flush loop of close_cft_logger ends with, and the
   * indices of the descriptors it closes, given for each log whether its
   * page in use held bytes (has) and its fd.  fsync and closeFd are what
   * fsync() and close() return.  The status carries over from one log to
   * the next unless that log has bytes to write, and a log is closed only
   * while the status is 0.
   */
  function CloseOutcome(has: seq<bool>, fds: seq<int>, fsync: int -> int, closeFd: int -> int): (int, seq<int>)
    requires |has| == |fds|
  {
    if |has| == 0 then (0, [])
    else
      var n := |has| - 1;
      var prev := CloseOutcome(has[..n], fds[..n], fsync, closeFd);
      var st := if has[n] then fsync(fds[n]) else prev.0;
      if st == 0 && fds[n] >= 0 then (closeFd(fds[n]), prev.1 + [n]) else (st, prev.1)
  }

  /** One more log: the outcome so far, then that log's fsync and close. */
  lemma CloseSnoc(has: seq<bool>, fds: seq<int>, h: bool, fd: int, fsync: int -> int, closeFd: int -> int)
    requires |has| == |fds|
    ensures var prev := CloseOutcome(has, fds, fsync, closeFd);
      var st := if h then fsync(fd) else prev.0;
      CloseOutcome(has + [h], fds + [fd], fsync, closeFd) ==
        if st == 0 && fd >= 0 then (closeFd(fd), prev.1 + [|has|]) else (st, prev.1)
  {
    assert (has + [h])[..|has|] == has && (fds + [fd])[..|fds|] == fds;
  }

  /** Only indices of the given logs are closed. */
  lemma {:induction false} CloseBelow(has: seq<bool>, fds: seq<int>, fsync: int -> int, closeFd: int -> int)
    requires |has| == |fds|
    ensures forall x :: x in CloseOutcome(has, fds, fsync, closeFd).1 ==> 0 <= x < |has|
  {
    if |has| > 0 {
      var n := |has| - 1;
      CloseBelow(has[..n], fds[..n], fsync, closeFd);
    }
  }

  /**
   * Log i is closed exactly when the status it sees is 0 and its fd is not
   * negative; that status is fsync's if it had bytes, else the one left by
   * the logs before it.  So after a failure, logs with nothing to write are
   * not closed until some log's fsync succeeds.
   */
  lemma {:induction false} ClosedIff(has: seq<bool>, fds: seq<int>, fsync: int -> int, closeFd: int -> int, i: int)
    requires |has| == |fds| && 0 <= i < |has|
    ensures i in CloseOutcome(has, fds, fsync, closeFd).1 <==>
      (if has[i] then fsync(fds[i]) else CloseOutcome(has[..i], fds[..i], fsync, closeFd).0) == 0 && fds[i] >= 0
  {
    var n := |has| - 1;
    CloseBelow(has[..n], fds[..n], fsync, closeFd);
    if i < n {
      ClosedIff(has[..n], fds[..n], fsync, closeFd, i);
      assert has[..n][..i] == has[..i] && fds[..n][..i] == fds[..i];
    }
  }

  /** When every fsync and close succeeds and no fd is negative, every log is closed and the status is 0. */
  lemma {:induction false} CloseAllGood(has: seq<bool>, fds: seq<int>, fsync: int -> int, closeFd: int -> int)
    requires |has| == |fds|
    requires forall i :: 0 <= i < |fds| ==> fds[i] >= 0 && fsync(fds[i]) == 0 && closeFd(fds[i]) == 0
    ensures CloseOutcome(has, fds, fsync, closeFd) == (0, seq(|has|, i => i))
  {
    if |has| == 0 {
      assert seq(0, i => i) == [];
    } else {
      var n := |has| - 1;
      CloseAllGood(has[..n], fds[..n], fsync, closeFd);
      assert fds[n] >= 0 && fsync(fds[n]) == 0 && closeFd(fds[n]) == 0;
      assert seq(n, i => i) + [n] == seq(|has|, i => i);
    }
  }

  /**
   * The bytes close_cft_logger writes for log d: what its page in use
   * holds, nothing when that page is empty.
   */
  ghost function Pending(d: LogDesc): (w: seq<byte>)
    requires d.Valid()
    reads d, d.logBufDescs, d.logBuffers
    ensures |w| == d.logBufDescs[d.bufInUse].offset
  {
    d.Held(d.bufInUse)
  }

  /**
   * The flush loop of close_cft_logger over slots 0..logNdx: the page in
   * use of each log, when it holds bytes, is written to the log's fd and
   * fsync'd, and then the fd is closed while the status is 0.  written[i]
   * is what was written for log i.
   */
  method FlushOnClose(g: Globals, fsync: int -> int, closeFd: int -> int)
    returns (status: int, ghost closed: seq<int>, ghost has: seq<bool>, ghost fds: seq<int>,
             ghost written: seq<seq<byte>>)
    requires g.Shaped() && -1 <= g.logNdx < CLOG_MAX_LOG
    requires forall i :: 0 <= i <= g.logNdx ==> g.logDescs[i] != null && g.logDescs[i].Valid()
    ensures |has| == |fds| == |written| == g.logNdx + 1
    ensures forall i :: 0 <= i <= g.logNdx ==>
      fds[i] == g.logDescs[i].fd && written[i] == Pending(g.logDescs[i]) && has[i] == (|written[i]| > 0)
    ensures (status, closed) == CloseOutcome(has, fds, fsync, closeFd)
  {
    var n := g.logNdx + 1;
    status := 0;
    closed, has, fds, written := [], [], [], [];
    var ndx := 0;
    while ndx < n
      invariant 0 <= ndx <= n
      invariant |has| == |fds| == |written| == ndx
      invariant forall i :: 0 <= i < ndx ==>
        fds[i] == g.logDescs[i].fd && written[i] == Pending(g.logDescs[i]) && has[i] == (|written[i]| > 0)
      invariant (status, closed) == CloseOutcome(has, fds, fsync, closeFd)
    {
      var d := g.logDescs[ndx];
      assert d.Valid();
      var h := d.logBufDescs[d.bufInUse].offset > 0;
      ghost var w := Pending(d);
      CloseSnoc(has, fds, h, d.fd, fsync, closeFd);
      if h {
        status := fsync(d.fd);
      }
      if status == 0 && d.fd >= 0 {
        status := closeFd(d.fd);
        closed := closed + [ndx];
      }
      has, fds, written := has + [h], fds + [d.fd], written + [w];
      ndx := ndx + 1;
    }
  }

  /** The last loop of close_cft_logger: cLogDealloc on every slot from logNdx down to 0. */
  method DeallocAll(g: Globals)
    requires g.Shaped() && -1 <= g.logNdx < CLOG_MAX_LOG
    modifies g`logNdx, g.logDescs
    ensures g.Shaped() && (old(g.Distinct()) ==> g.Distinct())
    ensures g.logNdx == -1
    ensures forall i :: 0 <= i <= old(g.logNdx) ==> g.logDescs[i] == null
    ensures forall i :: old(g.logNdx) < i < CLOG_MAX_LOG ==> g.logDescs[i] == old(g.logDescs[i])
  {
    while g.logNdx >= 0
      invariant -1 <= g.logNdx <= old(g.logNdx)
      invariant g.Shaped() && (old(g.Distinct()) ==> g.Distinct())
      invariant forall i :: g.logNdx < i <= old(g.logNdx) ==> g.logDescs[i] == null
      invariant forall i :: old(g.logNdx) < i < CLOG_MAX_LOG ==> g.logDescs[i] == old(g.logDescs[i])
    {
      CLogDealloc(g, g.logNdx);
      g.logNdx := g.logNdx - 1;
    }
  }

  /**
   * close_cft_logger: flush and close every open log, then free every
   * descriptor in slots 0..logNdx.  The status is the flush loop's.  A
   * descriptor a failed open left above logNdx stays where it is.
   */
  method CloseCftLogger(g: Globals, fsync: int -> int, closeFd: int -> int)
    returns (status: int, ghost closed: seq<int>, ghost has: seq<bool>, ghost fds: seq<int>,
             ghost written: seq<seq<byte>>)
    requires g.Shaped() && -1 <= g.logNdx < CLOG_MAX_LOG
    requires forall i :: 0 <= i <= g.logNdx ==> g.logDescs[i] != null && g.logDescs[i].Valid()
    modifies g`logNdx, g.logDescs
    ensures |has| == |fds| == |written| == old(g.logNdx) + 1
    ensures forall i :: 0 <= i <= old(g.logNdx) ==>
      fds[i] == old(g.logDescs[i].fd) && written[i] == old(Pending(g.logDescs[i])) && has[i] == (|written[i]| > 0)
    ensures (status, closed) == CloseOutcome(has, fds, fsync, closeFd)
    ensures g.Shaped() && (old(g.Distinct()) ==> g.Distinct())
    ensures g.logNdx == -1 && forall i :: 0 <= i <= old(g.logNdx) ==> g.logDescs[i] == null
    ensures forall i :: old(g.logNdx) < i < CLOG_MAX_LOG ==> g.logDescs[i] == old(g.logDescs[i])
  {
    status, closed, has, fds, written := FlushOnClose(g, fsync, closeFd);
    DeallocAll(g);
  }
}
