/**
 * The Python object type of the C extension, src/extsrc/cFTLogForPy.c: a
 * LogForPy object holds the index of its log in the descriptor table and
 * reads the descriptor found there.  The table is the extension's globals,
 * passed in as g.  Argument parsing, reference counts and the type object
 * are not part of this model.
 */
module CFTLogForPy {
  import opened Common
  import opened CLogState
  import opened LogBufs
  import opened ModFunc

  function Min(a: int, b: int): int
  {
    if a < b then a else b
  }

  /**
   * getPathToLog's text as written: logDir copied in full; "/" appended when
   * that leaves the text shorter than MAX_PATH_LEN; then, when it is still
   * shorter, strncat of logName with a limit of bytesLeft + 1 characters,
   * bytesLeft being what remains of MAX_PATH_LEN.  The result is a prefix of
   * logDir + "/" + logName.
   */
  function JoinAsWritten(logDir: string, logName: string): (s: string)
    requires |logDir| <= MAX_PATH_LEN && |logName| <= MAX_PATH_LEN
    ensures |s| <= MAX_PATH_LEN + 1
    ensures s <= logDir + "/" + logName
  {
    if |logDir| >= MAX_PATH_LEN then logDir
    else if |logDir| + 1 >= MAX_PATH_LEN then logDir + "/"
    else
      var bytesLeft := MAX_PATH_LEN - (|logDir| + 1);
      logDir + "/" + logName[..Min(|logName|, bytesLeft + 1)]
  }

  /**
   * With an empty logDir and a logName of MAX_PATH_LEN characters, the text
   * is MAX_PATH_LEN + 1 characters long: with its NUL that is one byte more
   * than the local buffer s[MAX_PATH_LEN + 1] holds.
   */
  lemma JoinOverflows()
    ensures |JoinAsWritten("", seq(MAX_PATH_LEN, _ => 'a'))| == MAX_PATH_LEN + 1
  {
    var name := seq(MAX_PATH_LEN, _ => 'a');
    assert JoinAsWritten("", name) == "/" + name;
  }

  /** When the two parts and the '/' fit in MAX_PATH_LEN, the text is the whole join. */
  lemma JoinFits(logDir: string, logName: string)
    requires |logDir| + 1 + |logName| <= MAX_PATH_LEN
    ensures JoinAsWritten(logDir, logName) == logDir + "/" + logName
  {
    assert logName[..|logName|] == logName;
  }

  /**
   * Splitting a path that open accepts and joining the parts gives the path
   * back: the two parts and the '/' fit.
   */
  lemma {:induction false} SplitJoin(path: string)
    requires |path| <= MAX_PATH_LEN && '/' in path
    ensures |DirOf(path)| + 1 + |NameOf(path)| == |path|
    ensures JoinAsWritten(DirOf(path), NameOf(path)) == path
  {
    DirNameOf(path);
    JoinFits(DirOf(path), NameOf(path));
  }

  /** LogForPyObject. */
  class LogForPy {
    /** The log's slot in logDescs: a long in the C struct. */
    var objNdx: int

    /** LogForPy(): PyObject_New does not set objNdx; whatever it holds is left. */
    constructor (left: int)
      ensures objNdx == left
    {
      objNdx := left;
    }

    /**
     * init(pathToLog): opens the log through _open_cft_log as written, whose
     * outcome r is returned here although Python sees only None.  objNdx is
     * written exactly when r is an index: the slot just after the old
     * logNdx.  A path longer than MAX_PATH_LEN is refused by openLogFile
     * with a positive errno, which _open_cft_log takes for a descriptor: it
     * dereferences an empty slot, or reinitialises the descriptor left in
     * it and hands out its index.  Otherwise a refused path, or a failed
     * open after the descriptor was installed, leaves objNdx and logNdx.
     * A log opened from an accepted path gives back its path in full.
     */
    method Init(g: Globals, pathToLog: string, checkDir: string -> DirStatus, openFd: int) returns (r: OpenOutcome)
      requires g.Shaped() && -1 <= g.logNdx < CLOG_MAX_LOG - 1
      modifies this, g`logNdx, g.logDescs, SlotPages(g, g.logNdx + 1)
      ensures g.Shaped() && (old(g.Distinct()) ==> g.Distinct())
      ensures forall i :: 0 <= i <= old(g.logNdx) ==> g.logDescs[i] == old(g.logDescs[i])
      ensures r.Opened? ==> objNdx == r.ndx == old(g.logNdx) + 1 == g.logNdx
      ensures !r.Opened? ==> objNdx == old(objNdx)
      ensures TooLong(Some(pathToLog)) && old(g.logDescs[g.logNdx + 1]) == null ==> r == NullDeref
      ensures forall i :: old(g.logNdx) + 1 < i < CLOG_MAX_LOG ==> g.logDescs[i] == old(g.logDescs[i])
      ensures TooLong(Some(pathToLog)) && old(g.logDescs[g.logNdx + 1]) != null ==>
        r.Opened? && g.logDescs[objNdx] == old(g.logDescs[g.logNdx + 1]) && unchanged(g.logDescs[objNdx]) &&
        (forall i :: 0 <= i < C_FT_LOG_BUF_COUNT ==> g.logDescs[objNdx].logBufDescs[i] == InitialPage(i)) &&
        (0 <= g.logDescs[objNdx].bufInUse < C_FT_LOG_BUF_COUNT ==> g.Live(objNdx))
      ensures !TooLong(Some(pathToLog)) && !PathAccepted(Some(pathToLog), checkDir) ==>
        r == Failed(-1) && g.logNdx == old(g.logNdx) && g.logDescs[..] == old(g.logDescs[..])
      ensures PathAccepted(Some(pathToLog), checkDir) && openFd < 0 ==>
        r == Failed(-1) && g.logNdx == old(g.logNdx) &&
        g.logDescs[old(g.logNdx) + 1] != null &&
        var d := g.logDescs[old(g.logNdx) + 1];
        fresh(d) && fresh(d.logBufDescs) && fresh(d.logBuffers) &&
        d.logDir == DirOf(pathToLog) && d.logName == NameOf(pathToLog) &&
        d.fd == openFd % UINT32_MOD && d.count == 0 && d.writeFlags == 0 && d.bufInUse == 0 && d.file == []
      ensures PathAccepted(Some(pathToLog), checkDir) && openFd >= 0 ==>
        r.Opened? && g.Live(objNdx) &&
        var d := g.logDescs[objNdx];
        fresh(d) && fresh(d.logBufDescs) && fresh(d.logBuffers) &&
        d.logDir == DirOf(pathToLog) && d.logName == NameOf(pathToLog) &&
        JoinAsWritten(d.logDir, d.logName) == pathToLog &&
        d.count == 0 && d.fd == openFd % UINT32_MOD && d.bufInUse == 0 &&
        forall i :: 0 <= i < C_FT_LOG_BUF_COUNT ==> d.logBufDescs[i] == InitialPage(i)
    {
      r := OpenCftLog(g, Some(pathToLog), checkDir, openFd);
      if r.Opened? {
        objNdx := r.ndx;
      }
      if PathAccepted(Some(pathToLog), checkDir) {
        SplitJoin(pathToLog);
      }
    }

    /** count(): the message count of the object's log. */
    method GetCount(g: Globals) returns (count: int)
      requires g.Shaped() && 0 <= objNdx < CLOG_MAX_LOG && g.logDescs[objNdx] != null
      ensures count == g.logDescs[objNdx].count
    {
      count := g.logDescs[objNdx].count;
    }

    /** ndx(): the object's slot. */
    method GetNdx() returns (ndx: int)
      ensures ndx == objNdx
    {
      ndx := objNdx;
    }

    /**
     * log_file(): logDir, "/" and logName, cut to MAX_PATH_LEN characters.
     * strncat's limit here is bytesLeft, so the text and its NUL fit in
     * s[MAX_PATH_LEN + 1]; wherever the text as written fits too, the two
     * agree.
     */
    method GetPathToLog(g: Globals) returns (s: string)
      requires g.Shaped() && 0 <= objNdx < CLOG_MAX_LOG && g.logDescs[objNdx] != null
      requires |g.logDescs[objNdx].logDir| <= MAX_PATH_LEN && |g.logDescs[objNdx].logName| <= MAX_PATH_LEN
      ensures var d := g.logDescs[objNdx];
        |s| <= MAX_PATH_LEN && s <= d.logDir + "/" + d.logName
      ensures var d := g.logDescs[objNdx];
        |d.logDir| + 1 + |d.logName| <= MAX_PATH_LEN ==> s == d.logDir + "/" + d.logName
      ensures var d := g.logDescs[objNdx];
        |JoinAsWritten(d.logDir, d.logName)| <= MAX_PATH_LEN ==> s == JoinAsWritten(d.logDir, d.logName)
    {
      var p := g.logDescs[objNdx];
      s := p.logDir;
      var x := |s|;
      if x < MAX_PATH_LEN {
        s := s + "/";
        x := |s|;
        if x < MAX_PATH_LEN {
          var bytesLeft := MAX_PATH_LEN - x;
          s := s + p.logName[..Min(|p.logName|, bytesLeft)];
          assert p.logName[..|p.logName|] == p.logName;
        }
      }
    }

    /**
     * log_msg(msg): the message goes to _log_msg for the object's slot (the
     * parsed C string is never NULL).
     */
    method LogMsg(g: Globals, msg: seq<byte>)
      requires g.Shaped() && g.Live(objNdx)
      requires |msg| < LOG_BUFFER_SIZE
      requires Overflows(g.logDescs[objNdx].logBufDescs[g.logDescs[objNdx].bufInUse], |msg|) ==>
        SpareReady(g.logDescs[objNdx])
      modifies g.logDescs[objNdx], g.logDescs[objNdx].logBufDescs, g.logDescs[objNdx].logBuffers
      ensures g.Live(objNdx) && Logged(g.logDescs[objNdx], msg)
    {
      ModFunc.LogMsg(g, objNdx, Some(msg));
    }
  }

  /** Every directory is there. */
  function AllThere(dir: string): DirStatus
  {
    0
  }

  /**
   * test_ctor: after init_cft_logger, a first object opened on a path with a
   * '/' has index 0, count 0, and gives the path back.
   */
  method FirstLog(pathToLog: string, openFd: int) returns (ndx: int, count: int, logFile: string)
    requires |pathToLog| <= MAX_PATH_LEN && '/' in pathToLog && openFd >= 0
    ensures ndx == 0 && count == 0 && logFile == pathToLog
  {
    var g := new Globals();
    var status := InitCftLogger(g, 0);
    var obj := new LogForPy(0);
    WalkVerdict(DirOf(pathToLog), AllThere, 1);
    var r := obj.Init(g, pathToLog, AllThere, openFd);
    ndx := obj.GetNdx();
    count := obj.GetCount(g);
    logFile := obj.GetPathToLog(g);
    DirNameOf(pathToLog);
  }

  /**
   * A first open whose open() fails leaves its descriptor in slot 0; a
   * second open of a path longer than MAX_PATH_LEN then hands out slot 0,
   * with the failed open's fd, to a second object.
   */
  method StaleLogReused(pathToLog: string, badFd: int) returns (first: OpenOutcome, second: OpenOutcome, fd: int)
    requires |pathToLog| <= MAX_PATH_LEN && '/' in pathToLog && badFd < 0
    ensures first == Failed(-1) && second == Opened(0) && fd == badFd % UINT32_MOD
  {
    var g := new Globals();
    var status := InitCftLogger(g, 0);
    var a := new LogForPy(0);
    var b := new LogForPy(0);
    WalkVerdict(DirOf(pathToLog), AllThere, 1);
    first := a.Init(g, pathToLog, AllThere, badFd);
    second := b.Init(g, seq(MAX_PATH_LEN + 1, _ => 'a'), AllThere, 0);
    fd := g.logDescs[b.objNdx].fd;
  }

  /**
   * test_count: after a first open, each of up to 128 messages of fewer than
   * 128 bytes steps the count by one; counts[k] is count() after message k.
   */
  method CountMessages(pathToLog: string, openFd: int, msgs: seq<seq<byte>>) returns (counts: seq<int>)
    requires |pathToLog| <= MAX_PATH_LEN && '/' in pathToLog && openFd >= 0
    requires |msgs| <= 128 && forall k :: 0 <= k < |msgs| ==> |msgs[k]| < 128
    ensures counts == seq(|msgs|, k => k + 1)
  {
    var g := new Globals();
    var status := InitCftLogger(g, 0);
    var obj := new LogForPy(0);
    WalkVerdict(DirOf(pathToLog), AllThere, 1);
    var r := obj.Init(g, pathToLog, AllThere, openFd);
    counts := LogEach(g, obj, msgs);
  }

  /** The loop of test_count over a log that has just been opened. */
  method LogEach(g: Globals, obj: LogForPy, msgs: seq<seq<byte>>) returns (counts: seq<int>)
    requires g.Shaped() && obj.objNdx == 0 && g.Live(0)
    requires g.logDescs[0].count == 0 && g.logDescs[0].bufInUse == 0 && g.logDescs[0].logBufDescs[0].offset == 0
    requires |msgs| <= 128 && forall k :: 0 <= k < |msgs| ==> |msgs[k]| < 128
    modifies g.logDescs[0], g.logDescs[0].logBufDescs, g.logDescs[0].logBuffers
    ensures counts == seq(|msgs|, k => k + 1)
  {
    var d := g.logDescs[0];
    counts := [];
    var k := 0;
    while k < |msgs|
      invariant 0 <= k <= |msgs| && |counts| == k
      invariant forall i :: 0 <= i < k ==> counts[i] == i + 1
      invariant g.Live(0) && d.count == k && d.bufInUse == 0 && d.logBufDescs[0].offset <= 128 * k
    {
      obj.LogMsg(g, msgs[k]);
      var c := obj.GetCount(g);
      counts := counts + [c];
      k := k + 1;
    }
  }
}
