/**
 * The Python side of the fault-tolerant log, src/xlutil/ftlog.py: log
 * entries compared field by field, one ActualLog per open log file, and the
 * LogMgr registry of open logs keyed by base name.  init_cft_logger runs on
 * the extension's globals, as ModFunc models it; the other C extension calls
 * (open_cft_log, log_msg, close_cft_logger) are oracles: their results are
 * parameters, and the text handed to log_msg is recorded in a field.
 */
module FtLog {
  import opened Common
  import CLogState
  import ModFunc

  /**
   * A log entry.  The constructor stores owner as the 1-tuple (owner,),
   * because of a trailing comma; owner here is that tuple.
   */
  datatype LogEntry = LogEntry(tstamp: int, key: seq<byte>, owner: seq<seq<byte>>,
                               length: int, src: seq<byte>, path: string)

  /** LogEntry(tstamp, key, owner, length, src, path). */
  function NewLogEntry(tstamp: int, key: seq<byte>, owner: seq<byte>, length: int,
                       src: seq<byte>, path: string): (e: LogEntry)
    ensures e.owner == [owner]
    ensures e.tstamp == tstamp && e.key == key && e.length == length && e.src == src && e.path == path
  {
    LogEntry(tstamp, key, [owner], length, src, path)
  }

  /** The right-hand side of ==: another entry, or an object of another kind. */
  datatype EqArg = Entry(e: LogEntry) | OtherObject

  /** __eq__: an entry of another kind is never equal; otherwise all six fields are compared. */
  function Equals(self: LogEntry, other: EqArg): (b: bool)
  {
    if other.OtherObject? then false
    else
      self.tstamp == other.e.tstamp && self.key == other.e.key && self.owner == other.e.owner &&
      self.length == other.e.length && self.src == other.e.src && self.path == other.e.path
  }

  /** __eq__ is equality of the entries, and hence of the constructor arguments. */
  lemma EqualsIsFieldwise(t1: int, k1: seq<byte>, o1: seq<byte>, l1: int, s1: seq<byte>, p1: string,
                          t2: int, k2: seq<byte>, o2: seq<byte>, l2: int, s2: seq<byte>, p2: string)
    ensures Equals(NewLogEntry(t1, k1, o1, l1, s1, p1), Entry(NewLogEntry(t2, k2, o2, l2, s2, p2))) <==>
      t1 == t2 && k1 == k2 && o1 == o2 && l1 == l2 && s1 == s2 && p1 == p2
    ensures forall e: LogEntry :: !Equals(e, OtherObject)
  {
    if [o1] == [o2] {
      assert o1 == [o1][0] == [o2][0] == o2;
    }
  }

  /** __eq__ on entries is reflexive, symmetric and coincides with value equality. */
  lemma EqualsIsEquality(e: LogEntry, f: LogEntry)
    ensures Equals(e, Entry(f)) <==> e == f
    ensures Equals(e, Entry(f)) == Equals(f, Entry(e))
  {
  }

  /**
   * The characters str.isspace accepts, which str.strip removes: the
   * controls tab to carriage return and the four separators 0x1c-0x1f,
   * space, next line, no-break space and the Unicode space separators,
   * line separator and paragraph separator.
   */
  predicate IsSpace(c: char)
  {
    '\t' <= c <= '\r' || '\U{1c}' <= c <= ' ' || (c >= '\U{85}' && IsWideSpace(c))
  }

  /** The whitespace characters above U+007F. */
  predicate IsWideSpace(c: char)
  {
    c == '\U{85}' || c == '\U{a0}' || c == '\U{1680}' || '\U{2000}' <= c <= '\U{200a}' ||
    c == '\U{2028}' || c == '\U{2029}' || c == '\U{202f}' || c == '\U{205f}' || c == '\U{3000}'
  }

  /** s without its leading whitespace. */
  function StripLeft(s: string): (r: string)
    ensures |r| <= |s| && r == s[|s| - |r|..]
    ensures forall k :: 0 <= k < |s| - |r| ==> IsSpace(s[k])
    ensures r == [] || !IsSpace(r[0])
  {
    if |s| > 0 && IsSpace(s[0]) then StripLeft(s[1..]) else s
  }

  /** s without its trailing whitespace. */
  function StripRight(s: string): (r: string)
    ensures |r| <= |s| && r == s[..|r|]
    ensures forall k :: |r| <= k < |s| ==> IsSpace(s[k])
    ensures r == [] || !IsSpace(r[|r| - 1])
  {
    if |s| > 0 && IsSpace(s[|s| - 1]) then StripRight(s[..|s| - 1]) else s
  }

  /**
   * str.strip: a slice of s whose ends are not whitespace, with only
   * whitespace before and after it.
   */
  function Strip(s: string): (r: string)
    ensures exists i, j ::
              0 <= i <= j <= |s| && r == s[i..j] &&
              (forall k :: 0 <= k < i ==> IsSpace(s[k])) && (forall k :: j <= k < |s| ==> IsSpace(s[k]))
    ensures r == [] || (!IsSpace(r[0]) && !IsSpace(r[|r| - 1]))
  {
    var l := StripLeft(s);
    var r := StripRight(l);
    StripSlice(s, l, r);
    r
  }

  /** A prefix r of a suffix l of s, dropping only whitespace, is a slice between whitespace. */
  lemma StripSlice(s: string, l: string, r: string)
    requires |l| <= |s| && l == s[|s| - |l|..] && forall k :: 0 <= k < |s| - |l| ==> IsSpace(s[k])
    requires |r| <= |l| && r == l[..|r|] && forall k :: |r| <= k < |l| ==> IsSpace(l[k])
    ensures exists i, j ::
              0 <= i <= j <= |s| && r == s[i..j] &&
              (forall k :: 0 <= k < i ==> IsSpace(s[k])) && (forall k :: j <= k < |s| ==> IsSpace(s[k]))
  {
    var i := |s| - |l|;
    assert r == s[i..i + |r|];
    assert forall k :: i + |r| <= k < |s| ==> s[k] == l[k - i];
  }

  /** Text holding any character that is not whitespace does not strip to "". */
  lemma StripKeepsText(s: string, k: int)
    requires 0 <= k < |s| && !IsSpace(s[k])
    ensures Strip(s) != []
  {
    var r := Strip(s);
    var i, j :| 0 <= i <= j <= |s| && r == s[i..j] &&
      (forall m :: 0 <= m < i ==> IsSpace(s[m])) && (forall m :: j <= m < |s| ==> IsSpace(s[m]));
    assert i <= k < j;
  }

  /** A string that neither starts nor ends with whitespace is its own strip. */
  lemma StripNoWhitespace(s: string)
    requires s == [] || (!IsSpace(s[0]) && !IsSpace(s[|s| - 1]))
    ensures Strip(s) == s
  {
  }

  /** os.path.join(a, b) for POSIX paths. */
  function PathJoin(a: string, b: string): (p: string)
    ensures |b| > 0 && b[0] == '/' ==> p == b
    ensures (|b| == 0 || b[0] != '/') && (a == [] || a[|a| - 1] == '/') ==> p == a + b
    ensures (|b| == 0 || b[0] != '/') && a != [] && a[|a| - 1] != '/' ==> p == a + "/" + b
  {
    if |b| > 0 && b[0] == '/' then b
    else if a == [] || a[|a| - 1] == '/' then a + b
    else a + "/" + b
  }

  /** The line log(msg) writes: "{date} {hours} {msg}\n". */
  function LogLine(date: string, hours: string, msg: string): (text: string)
    ensures |text| == |date| + |hours| + |msg| + 3
    ensures text[..|date|] == date && text[|date|] == ' '
    ensures text[|date| + 1..|date| + 1 + |hours|] == hours && text[|date| + 1 + |hours|] == ' '
    ensures text[|date| + |hours| + 2..|text| - 1] == msg && text[|text| - 1] == '\n'
  {
    date + " " + hours + " " + msg + "\n"
  }

  datatype Error = ValueError(msg: string) | RuntimeError(status: int)

  /** One open log file. */
  class ActualLog {
    const baseName: string
    const mgr: LogMgr
    const logFile: string
    const nameCopy: string
    var lfd: Option<int>
    /** The texts handed to log_msg, oldest first. */
    var sent: seq<string>

    /** nameCopy is the stripped copy of logFile. */
    predicate Valid()
    {
      nameCopy == Strip(logFile)
    }

    constructor (baseName: string, mgr: LogMgr, logFile: string, handle: int)
      ensures Valid()
      ensures this.baseName == baseName && this.mgr == mgr && this.logFile == logFile
      ensures lfd == Some(handle) && sent == []
    {
      this.baseName := baseName;
      this.mgr := mgr;
      this.logFile := logFile;
      nameCopy := Strip(logFile);
      lfd := Some(handle);
      sent := [];
    }

    /**
     * ActualLog(base_name, mgr): the log file is base_name + ".log" inside
     * mgr's directory; openStatus is what open_cft_log returns for the stripped
     * path, and a negative value is an error.
     */
    static method New(baseName: string, mgr: LogMgr, openStatus: int) returns (r: Result<ActualLog, Error>)
      ensures openStatus < 0 ==> r == Err(RuntimeError(openStatus))
      ensures openStatus >= 0 ==> r.Ok? && fresh(r.value) && r.value.Valid()
      ensures openStatus >= 0 ==> (r.Ok? && r.value.lfd == Some(openStatus) && r.value.sent == [] &&
        r.value.baseName == baseName && r.value.mgr == mgr &&
        r.value.logFile == PathJoin(mgr.logDir, baseName + ".log"))
    {
      var logFile := PathJoin(mgr.logDir, baseName + ".log");
      if openStatus < 0 {
        return Err(RuntimeError(openStatus));
      }
      var log := new ActualLog(baseName, mgr, logFile, openStatus);
      return Ok(log);
    }

    /** log(msg) at the given date and time: hands the line to log_msg and returns it. */
    method Log(msg: string, date: string, hours: string) returns (text: string)
      modifies this`sent
      ensures text == LogLine(date, hours, msg)
      ensures sent == old(sent) + [text]
    {
      text := date + " " + hours + " " + msg + "\n";
      sent := sent + [text];
    }

    /** log_file_name: the stripped copy of the path. */
    method LogFileName() returns (name: string)
      requires Valid()
      ensures name == Strip(logFile)
    {
      name := nameCopy;
    }
  }

  /** The registry of open logs, keyed by base name. */
  class LogMgr {
    var logMap: map<string, ActualLog>
    const logDir: string

    /**
     * LogMgr(log_dir='logs'): no log open yet, and init_cft_logger has reset
     * the extension's descriptor table; its status is discarded.
     */
    constructor (g: CLogState.Globals, writerStatus: int, logDir: string := "logs")
      requires g.Shaped()
      modifies g, g.logDescs
      ensures logMap == map[] && this.logDir == logDir
      ensures g.Shaped() && g.logNdx == -1
      ensures forall i :: 0 <= i < CLogState.CLOG_MAX_LOG ==> g.logDescs[i] == null
    {
      logMap := map[];
      this.logDir := logDir;
      new;
      var _ := ModFunc.InitCftLogger(g, writerStatus);
    }

    /**
     * open(base_name): a name already open is refused; otherwise a new
     * ActualLog is registered under it and returned.
     */
    method Open(baseName: string, openStatus: int) returns (r: Result<ActualLog, Error>)
      modifies this`logMap
      ensures baseName in old(logMap) ==>
        r == Err(ValueError("log named " + baseName + " already exists")) && logMap == old(logMap)
      ensures baseName !in old(logMap) && openStatus < 0 ==> r == Err(RuntimeError(openStatus)) && logMap == old(logMap)
      ensures baseName !in old(logMap) && openStatus >= 0 ==>
        r.Ok? && fresh(r.value) && r.value.Valid() && logMap == old(logMap)[baseName := r.value] &&
        r.value.lfd == Some(openStatus) && r.value.logFile == PathJoin(logDir, baseName + ".log")
    {
      if baseName in logMap {
        return Err(ValueError("log named " + baseName + " already exists"));
      }
      r := ActualLog.New(baseName, this, openStatus);
      if r.Ok? {
        logMap := logMap[baseName := r.value];
      }
    }

    /** close(): forgets every log and returns what close_cft_logger returns. */
    method Close(closed: int) returns (status: int)
      modifies this`logMap
      ensures logMap == map[] && status == closed
    {
      logMap := map[];
      status := closed;
    }

    /** The log_dir property. */
    method LogDir() returns (d: string)
      ensures d == logDir
    {
      d := logDir;
    }
  }

  /** The path of log "foo" under directory "logs". */
  lemma FooLogPath()
    ensures Strip(PathJoin("logs", "foo" + ".log")) == "logs/foo.log"
  {
    assert "foo" + ".log" == "foo.log";
    assert PathJoin("logs", "foo.log") == "logs" + "/" + "foo.log" == "logs/foo.log";
    StripNoWhitespace("logs/foo.log");
  }

  /** LogMgr("logs").open("foo") logs to "logs/foo.log". */
  method OpenFoo(g: CLogState.Globals, openStatus: int) returns (name: string)
    requires g.Shaped() && openStatus >= 0
    modifies g, g.logDescs
    ensures name == "logs/foo.log"
  {
    var mgr := new LogMgr(g, 0);
    var r := mgr.Open("foo", openStatus);
    name := r.value.LogFileName();
    FooLogPath();
  }
}
