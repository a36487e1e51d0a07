/**
 * src/extsrc/logBufs.c: laying out a descriptor's pages, splitting the log
 * path, the directory walk, the descriptor table and opening a log file.
 * The file system is an oracle: checkDir's verdict on a directory and
 * open()'s result are parameters.
 */
module LogBufs {
  import opened Common
  import opened CLogState

  /** Page i as initLogBuffers leaves it: page 0 ACTIVE, the others READY, all empty. */
  function InitialPage(i: int): (p: Page)
    ensures 0 <= i < C_FT_LOG_BUF_COUNT ==> PageOk(p, i) && p.offset == 0
    ensures p.flags == ACTIVE_BUF <==> i == 0
  {
    Page(i * LOG_BUFFER_SIZE, 0, LOG_BUFFER_SIZE, if i == 0 then ACTIVE_BUF else READY_BUF)
  }

  /**
   * initLogBuffers(ndx): clears the page descriptors of logDescs[ndx], then
   * lays page i out at byte i * LOG_BUFFER_SIZE.  bufInUse is left alone
   * (calloc zeroed it).
   */
  method InitLogBuffers(g: Globals, ndx: int) returns (status: int)
    requires g.Shaped() && 0 <= ndx < CLOG_MAX_LOG && g.logDescs[ndx] != null
    modifies g.logDescs[ndx].logBufDescs
    ensures status == 0
    ensures forall i :: 0 <= i < C_FT_LOG_BUF_COUNT ==> g.logDescs[ndx].logBufDescs[i] == InitialPage(i)
    ensures 0 <= g.logDescs[ndx].bufInUse < C_FT_LOG_BUF_COUNT ==> g.logDescs[ndx].Valid()
  {
    var d := g.logDescs[ndx];
    forall i | 0 <= i < C_FT_LOG_BUF_COUNT {
      d.logBufDescs[i] := Page(0, 0, 0, 0);
    }
    var i := 0;
    while i < C_FT_LOG_BUF_COUNT
      invariant 0 <= i <= C_FT_LOG_BUF_COUNT
      invariant forall j :: 0 <= j < i ==> d.logBufDescs[j] == InitialPage(j)
      invariant forall j :: i <= j < C_FT_LOG_BUF_COUNT ==> d.logBufDescs[j].offset == 0
    {
      var p := d.logBufDescs[i];
      d.logBufDescs[i] := p.(flags := if i == 0 then ACTIVE_BUF else READY_BUF,
                             pageBytes := LOG_BUFFER_SIZE, data := i * LOG_BUFFER_SIZE);
      i := i + 1;
    }
    status := 0;
  }

  /** The index of the last '/' of s, or -1 when there is none. */
  function LastSlash(s: string): (k: int)
    ensures -1 <= k < |s|
    ensures k >= 0 ==> s[k] == '/'
    ensures forall i :: k < i < |s| ==> s[i] != '/'
  {
    if |s| == 0 then -1
    else if s[|s| - 1] == '/' then |s| - 1
    else LastSlash(s[..|s| - 1])
  }

  /** The text before the last '/'. */
  function DirOf(s: string): string
    requires '/' in s
  {
    s[..LastSlash(s)]
  }

  /** The text after the last '/'. */
  function NameOf(s: string): string
    requires '/' in s
  {
    s[LastSlash(s) + 1..]
  }

  /** The two parts and the '/' between them make up the path; the name has no '/'. */
  lemma DirNameOf(s: string)
    requires '/' in s
    ensures s == DirOf(s) + "/" + NameOf(s)
    ensures '/' !in NameOf(s)
  {
    var k := LastSlash(s);
    assert k >= 0;
    assert s == s[..k] + [s[k]] + s[k + 1..];
  }

  /**
   * splitPath: a path longer than MAX_PATH_LEN gives ENAMETOOLONG, one
   * without '/' gives -1; otherwise logDir is the text before the last '/'
   * and logName the text after it.  On failure the two outputs are not
   * written (here: empty).
   */
  method SplitPath(s: string) returns (status: int, logDir: string, logName: string)
    ensures status == ENAMETOOLONG <==> |s| > MAX_PATH_LEN
    ensures status == -1 <==> |s| <= MAX_PATH_LEN && '/' !in s
    ensures status == 0 <==> |s| <= MAX_PATH_LEN && '/' in s
    ensures status == 0 ==> '/' in s && logDir == DirOf(s) && logName == NameOf(s)
    ensures status != 0 ==> logDir == "" && logName == ""
  {
    logDir, logName := "", "";
    if |s| > MAX_PATH_LEN {
      return ENAMETOOLONG, logDir, logName;
    }
    var p := |s| - 1;
    var foundIt := false;
    while p >= 0
      invariant -1 <= p < |s|
      invariant forall k :: p < k < |s| ==> s[k] != '/'
    {
      if s[p] == '/' {
        foundIt := true;
        break;
      }
      p := p - 1;
    }
    if foundIt {
      LastSlashIsLast(s, p);
      logDir := s[..p];
      logName := s[p + 1..];
      status := 0;
    } else {
      status := -1;
    }
  }

  /** A '/' with no '/' after it is the last one. */
  lemma {:induction false} LastSlashIsLast(s: string, p: int)
    requires 0 <= p < |s| && s[p] == '/'
    requires forall k :: p < k < |s| ==> s[k] != '/'
    ensures LastSlash(s) == p
    decreases |s|
  {
    if p < |s| - 1 {
      LastSlashIsLast(s[..|s| - 1], p);
    }
  }

  /** A prefix of path ending just before a '/' at index at least q. */
  ghost predicate SlashPrefix(path: string, c: string, q: int)
  {
    q <= |c| < |path| && path[..|c|] == c && path[|c|] == '/'
  }

  /**
   * The checks checkDirs makes from index q on, and the status it returns:
   * each prefix ending before a '/' is checked in turn; at the first
   * failure that prefix is checked again; otherwise the whole path is.
   */
  function Walk(path: string, checkDir: string -> DirStatus, q: nat): (r: (int, seq<string>))
    decreases |path| - q
  {
    if q >= |path| then (checkDir(path), [path])
    else if path[q] == '/' && checkDir(path[..q]) != 0 then (checkDir(path[..q]), [path[..q], path[..q]])
    else if path[q] == '/' then
      var w := Walk(path, checkDir, q + 1);
      (w.0, [path[..q]] + w.1)
    else Walk(path, checkDir, q + 1)
  }

  /** checkDirs returns the verdict of its last check, which line 105 makes. */
  lemma {:induction false} WalkVerdict(path: string, checkDir: string -> DirStatus, q: nat)
    ensures var w := Walk(path, checkDir, q); |w.1| >= 1 && w.0 == checkDir(w.1[|w.1| - 1])
    decreases |path| - q
  {
    if q < |path| && !(path[q] == '/' && checkDir(path[..q]) != 0) {
      WalkVerdict(path, checkDir, q + 1);
    }
  }

  /** At a character other than '/', the walk moves on. */
  lemma WalkSkip(path: string, checkDir: string -> DirStatus, q: nat)
    requires q < |path| && path[q] != '/'
    ensures Walk(path, checkDir, q) == Walk(path, checkDir, q + 1)
  {
  }

  /** At a '/' whose prefix passes, that prefix is checked and the walk moves on. */
  lemma WalkStep(path: string, checkDir: string -> DirStatus, q: nat)
    requires q < |path| && path[q] == '/' && checkDir(path[..q]) == 0
    ensures Walk(path, checkDir, q).0 == Walk(path, checkDir, q + 1).0
    ensures Walk(path, checkDir, q).1 == [path[..q]] + Walk(path, checkDir, q + 1).1
  {
  }

  /** At a '/' whose prefix fails, that prefix is checked twice and the walk ends. */
  lemma WalkCut(path: string, checkDir: string -> DirStatus, q: nat)
    requires q < |path| && path[q] == '/' && checkDir(path[..q]) != 0
    ensures Walk(path, checkDir, q) == (checkDir(path[..q]), [path[..q], path[..q]])
  {
  }

  /** Every check but the last is of a prefix ending before a '/', each longer than the one before. */
  lemma {:induction false} WalkPrefixes(path: string, checkDir: string -> DirStatus, q: nat)
    ensures var calls := Walk(path, checkDir, q).1;
      forall i :: 0 <= i < |calls| - 1 ==>
        q <= |calls[i]| < |path| && path[..|calls[i]|] == calls[i] && path[|calls[i]|] == '/'
    ensures var calls := Walk(path, checkDir, q).1;
      forall i :: 0 <= i < |calls| - 2 ==> |calls[i]| < |calls[i + 1]|
    decreases |path| - q
  {
    if q < |path| && path[q] == '/' && checkDir(path[..q]) != 0 {
      assert |path[..q]| == q;
    } else if q < |path| {
      WalkPrefixes(path, checkDir, q + 1);
      if path[q] == '/' {
        WalkStep(path, checkDir, q);
        var rest := Walk(path, checkDir, q + 1).1;
        var calls := [path[..q]] + rest;
        assert |path[..q]| == q;
        forall i | 1 <= i < |calls|
          ensures calls[i] == rest[i - 1]
        {
        }
      } else {
        WalkSkip(path, checkDir, q);
      }
    }
  }

  /** All checks but the last two passed. */
  lemma {:induction false} WalkPassed(path: string, checkDir: string -> DirStatus, q: nat)
    ensures var calls := Walk(path, checkDir, q).1;
      forall i :: 0 <= i < |calls| - 2 ==> checkDir(calls[i]) == 0
    decreases |path| - q
  {
    if q < |path| && !(path[q] == '/' && checkDir(path[..q]) != 0) {
      WalkPassed(path, checkDir, q + 1);
      if path[q] == '/' {
        WalkStep(path, checkDir, q);
        var rest := Walk(path, checkDir, q + 1).1;
        var calls := [path[..q]] + rest;
        forall i | 1 <= i < |calls|
          ensures calls[i] == rest[i - 1]
        {
        }
      } else {
        WalkSkip(path, checkDir, q);
      }
    }
  }

  /** When the whole path is checked last, every prefix before a '/' was checked and passed. */
  lemma {:induction false} WalkComplete(path: string, checkDir: string -> DirStatus, q: nat)
    ensures var calls := Walk(path, checkDir, q).1;
      |calls| >= 1 && (calls[|calls| - 1] == path ==>
        forall k :: q <= k < |path| && path[k] == '/' ==> path[..k] in calls && checkDir(path[..k]) == 0)
    decreases |path| - q
  {
    WalkVerdict(path, checkDir, q);
    if q < |path| && !(path[q] == '/' && checkDir(path[..q]) != 0) {
      WalkComplete(path, checkDir, q + 1);
    }
  }

  /**
   * Otherwise the last two checks are of one prefix before a '/', which
   * failed, and every shorter such prefix was checked and passed.
   */
  lemma {:induction false} WalkStopped(path: string, checkDir: string -> DirStatus, q: nat)
    ensures var calls := Walk(path, checkDir, q).1;
      |calls| >= 1 && (calls[|calls| - 1] != path ==>
        |calls| >= 2 && calls[|calls| - 2] == calls[|calls| - 1] &&
        SlashPrefix(path, calls[|calls| - 1], q) && checkDir(calls[|calls| - 1]) != 0 &&
        forall k :: q <= k < |calls[|calls| - 1]| && path[k] == '/' ==> path[..k] in calls && checkDir(path[..k]) == 0)
    decreases |path| - q
  {
    WalkVerdict(path, checkDir, q);
    if q < |path| {
      if path[q] == '/' && checkDir(path[..q]) != 0 {
        assert |path[..q]| == q;
      } else {
        WalkStopped(path, checkDir, q + 1);
      }
    }
  }

  /**
   * checkDirs(pathToLog): checks each directory on the way to pathToLog,
   * stopping at the first failure, then checks the (possibly cut) path once
   * more and returns that last verdict.  calls lists the checkDir calls.
   * Only a path shorter than MAX_PATH_LEN is copied with its terminator.
   */
  method CheckDirs(pathToLog: string, checkDir: string -> DirStatus) returns (status: int, calls: seq<string>)
    requires |pathToLog| < MAX_PATH_LEN
    ensures (status, calls) == Walk(pathToLog, checkDir, 1)
  {
    var path := pathToLog;
    ghost var walk := Walk(path, checkDir, 1);
    status := 0;
    calls := [];
    var p := 1;
    var cut := false;
    while p < |path|
      invariant 1 <= p && !cut
      invariant walk.0 == Walk(path, checkDir, p).0
      invariant walk.1 == calls + Walk(path, checkDir, p).1
      decreases |path| - p
    {
      if path[p] == '/' {
        var prefix := path[..p];
        status := checkDir(prefix);
        if status != 0 {
          WalkCut(path, checkDir, p);
          assert walk.1 == calls + [prefix] + [prefix];
          calls := calls + [prefix];
          cut := true;
          break;
        }
        WalkStep(path, checkDir, p);
        assert walk.1 == calls + [prefix] + Walk(path, checkDir, p + 1).1;
        calls := calls + [prefix];
      } else {
        WalkSkip(path, checkDir, p);
      }
      p := p + 1;
    }
    var checked := if cut then path[..p] else path;
    status := checkDir(checked);
    calls := calls + [checked];
    assert calls == walk.1;
  }

  /** initLogDescs: every slot of the table NULL. */
  method InitLogDescs(g: Globals)
    requires g.Shaped()
    modifies g.logDescs
    ensures g.Shaped() && g.Distinct()
    ensures forall i :: 0 <= i < CLOG_MAX_LOG ==> g.logDescs[i] == null
  {
    var i := 0;
    while i < CLOG_MAX_LOG
      invariant 0 <= i <= CLOG_MAX_LOG
      invariant forall j :: 0 <= j < i ==> g.logDescs[j] == null
    {
      g.logDescs[i] := null;
      i := i + 1;
    }
  }

  /** cLogDealloc(ndx): frees slot ndx and clears it; an empty slot is left alone. */
  method CLogDealloc(g: Globals, ndx: int)
    requires g.Shaped() && 0 <= ndx < CLOG_MAX_LOG
    modifies g.logDescs
    ensures g.Shaped()
    ensures old(g.Distinct()) ==> g.Distinct()
    ensures g.logDescs[ndx] == null
    ensures forall i :: 0 <= i < CLOG_MAX_LOG && i != ndx ==> g.logDescs[i] == old(g.logDescs[i])
    ensures old(g.logDescs[ndx]) == null ==> g.logDescs[..] == old(g.logDescs[..])
  {
    var cLog := g.logDescs[ndx];
    if cLog != null {
      g.logDescs[ndx] := null;
    }
  }

  /**
   * Slot logNdx holds a new, never used descriptor for logDir and logName
   * whose fd is openFd; every other slot is as before.
   */
  twostate predicate Installed(g: Globals, logDir: string, logName: string, openFd: int)
    reads g, g.logDescs
    reads if 0 <= g.logNdx < g.logDescs.Length && g.logDescs[g.logNdx] != null then {g.logDescs[g.logNdx]} else {}
  {
    0 <= g.logNdx < g.logDescs.Length && g.logDescs[g.logNdx] != null &&
    (forall i :: 0 <= i < g.logDescs.Length && i != g.logNdx ==> g.logDescs[i] == old(g.logDescs[i])) &&
    var d := g.logDescs[g.logNdx];
    fresh(d) && fresh(d.logBufDescs) && fresh(d.logBuffers) && d.logDir == logDir && d.logName == logName &&
    d.fd == openFd % UINT32_MOD && d.count == 0 && d.writeFlags == 0 && d.bufInUse == 0 && d.file == []
  }

  /** The last step of openLogFile: a new descriptor holding open()'s result goes into slot logNdx. */
  method InstallDesc(g: Globals, logDir: string, logName: string, openFd: int)
    requires g.Shaped() && 0 <= g.logNdx < CLOG_MAX_LOG
    modifies g.logDescs
    ensures g.Shaped()
    ensures old(g.Distinct()) ==> g.Distinct()
    ensures Installed(g, logDir, logName, openFd)
  {
    var sd := new LogDesc(logDir, logName);
    sd.fd := openFd % UINT32_MOD;
    g.logDescs[g.logNdx] := sd;
  }

  /**
   * openLogFile(pathToLog): NULL gives -1; a failed split or directory
   * walk gives its status and installs nothing; otherwise the descriptor is
   * installed at logDescs[logNdx] and open()'s result returned, -1 included.
   */
  method OpenLogFile(g: Globals, pathToLog: Option<string>, checkDir: string -> DirStatus, openFd: int)
    returns (status: int)
    requires g.Shaped() && 0 <= g.logNdx < CLOG_MAX_LOG
    modifies g.logDescs
    ensures g.Shaped()
    ensures old(g.Distinct()) ==> g.Distinct()
    ensures pathToLog.None? ==> status == -1 && g.logDescs[..] == old(g.logDescs[..])
    ensures pathToLog.Some? && |pathToLog.value| > MAX_PATH_LEN ==>
      status == ENAMETOOLONG && g.logDescs[..] == old(g.logDescs[..])
    ensures pathToLog.Some? && |pathToLog.value| <= MAX_PATH_LEN && '/' !in pathToLog.value ==>
      status == -1 && g.logDescs[..] == old(g.logDescs[..])
    ensures pathToLog.Some? && |pathToLog.value| <= MAX_PATH_LEN && '/' in pathToLog.value ==>
      var dirs := Walk(DirOf(pathToLog.value), checkDir, 1).0;
      (dirs != 0 ==> status == dirs && g.logDescs[..] == old(g.logDescs[..])) &&
      (dirs == 0 ==> status == openFd && Installed(g, DirOf(pathToLog.value), NameOf(pathToLog.value), openFd))
  {
    if pathToLog.None? {
      return -1;
    }
    var logDir, logName;
    status, logDir, logName := SplitPath(pathToLog.value);
    if status == 0 {
      var calls;
      status, calls := CheckDirs(logDir, checkDir);
    }
    if status == 0 {
      status := openFd;
      InstallDesc(g, logDir, logName, openFd);
    }
  }

  /**
   * The paths openLogFile gets as far as open() with: present, no longer
   * than MAX_PATH_LEN, with a directory part that checkDirs walks without
   * a failure.
   */
  predicate PathAccepted(pathToLog: Option<string>, checkDir: string -> DirStatus)
  {
    pathToLog.Some? && |pathToLog.value| <= MAX_PATH_LEN && '/' in pathToLog.value &&
    Walk(DirOf(pathToLog.value), checkDir, 1).0 == 0
  }

  /**
   * openLogFile as its own comment describes it: any failure before open()
   * gives -1 and installs nothing; otherwise the descriptor is installed at
   * logDescs[logNdx] and open()'s result returned.
   */
  method OpenLogFileChecked(g: Globals, pathToLog: Option<string>, checkDir: string -> DirStatus, openFd: int)
    returns (status: int)
    requires g.Shaped() && 0 <= g.logNdx < CLOG_MAX_LOG
    modifies g.logDescs
    ensures g.Shaped()
    ensures old(g.Distinct()) ==> g.Distinct()
    ensures !PathAccepted(pathToLog, checkDir) ==> status == -1 && g.logDescs[..] == old(g.logDescs[..])
    ensures PathAccepted(pathToLog, checkDir) ==>
      status == openFd && Installed(g, DirOf(pathToLog.value), NameOf(pathToLog.value), openFd)
  {
    if pathToLog.None? {
      return -1;
    }
    var logDir, logName;
    status, logDir, logName := SplitPath(pathToLog.value);
    if status != 0 {
      return -1;
    }
    var calls;
    status, calls := CheckDirs(logDir, checkDir);
    if status != 0 {
      return -1;
    }
    status := openFd;
    InstallDesc(g, logDir, logName, openFd);
  }
}
