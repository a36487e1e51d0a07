# xlutil in Dafny

This project models the core of xlutil, a Python utility library with a C
extension, and proves properties of the model. The model covers these parts:

- **PopCount** (`popcount.dfy`): the SWAR bit counts `popcount32` and
  `popcount64`. Each is proved equal to a count of set bits defined by
  halving the word.
- **Versions** (`versions.dfy`): `DecimalVersion`, four parts of 0..255
  packed into one int.
  - Construction raises an error for a part out of range.
  - The part getters, `__str__` and `parse_decimal_version` are modelled.
  - So is the `value` setter for an int, a string or another version.
  - The four relational operators are modelled and proved to be the
    lexicographic order of (a, b, c, d), a strict total order.
  - The four `step_*` operations are modelled, with their range errors.
  - Parsing the printed form gives the value back.
- **HexDump** (`hexdump.dfy`): `dump_byte_slice`, with a decoder proved to
  be its inverse.
- **LockedContext** (`locked_context.dfy`): the context in
  `xlutil/context.py`.
  - `bind`, `lookup` through the parent chain, `unbind`, `__contains__`,
    `keys()`, `__len__` and the checked `parent` setter are modelled.
  - `lookup` is proved to return the binding at the first level of the chain
    that binds the name.
  - The docstrings of `unbind` in both contexts say an unbound name is
    silently ignored, but the code raises KeyError. Both models follow the
    code.
- **PlainContext** (`plain_context.dfy`): the other context, in
  `src/xlutil/context.py`. Its parent may be any object: None, a context,
  a mapping or something else. Its lookup falls back to the parent by
  subscripting it. A mapping answers, but the context class does not
  support subscripting (see Findings).
- **FtLog** (`ftlog.dfy`): `LogEntry` and its equality; `ActualLog`, with
  its path join, strip, open check and log line; and `LogMgr`, with the
  `init_cft_logger` call made on creation, open, close and the
  duplicate-name error.
- **CLogState, LogBufs, EvLoop, ModFunc, CFTLogForPy**: the fault-tolerant
  log C extension under `src/extsrc`.
  - State: the global table of up to 16 log descriptors, each a ring of
    four pages of 16384 bytes.
  - Splitting and checking the path (`splitPath`, `checkDirs`,
    `openLogFile`).
  - `_open_cft_log`.
  - `_log_msg`: the message goes on the current page, or on the next READY
    page when it does not fit.
  - The libev timer callback, which flushes the page in use.
  - `close_cft_logger`: a flush and close loop, then freeing every
    descriptor.
  - The `LogForPy` object type.

Operating-system calls are parameters of the model:

- `checkDir` is a function argument.
- `open` is an integer result chosen by the caller.
- `fsync` and `close` are functions of the descriptor.

The bytes written to a log file are a ghost field of the descriptor.

## Model

| member | source | states |
|---|---|---|
| PopCount.Popcount32Correct | src/xlutil/__init__.py:439-445 | for every n below 2^32, popcount32(n) equals the number of set bits of n |
| PopCount.Popcount64Correct | src/xlutil/__init__.py:448-455 | for every 64-bit n, popcount64(n) equals the number of set bits of n |
| PopCount.SwarLanes | src/xlutil/__init__.py:452-454 | after the pair, nibble and byte steps, every byte of the word holds the bit count (at most 8) of the matching byte of n |
| PopCount.Swar32Is64 | src/xlutil/__init__.py:443-445 | on 32-bit inputs, the 32-bit masks give the same word as the 64-bit masks |
| PopCount.Fold64Tree | src/xlutil/__init__.py:454-455 | the multiply by 0x0101010101010101 and the shift by 56 give the sum of the eight bytes |
| PopCount.Fold32Tree | src/xlutil/__init__.py:445 | the multiply by 0x01010101, the 32-bit mask and the shift by 24 give the sum of the four low bytes |
| Versions.DigitChar | src/xlutil/__init__.py:237-239 | a digit 0..9 becomes the decimal digit character of that value |
| Versions.DecimalString | src/xlutil/__init__.py:237-239 | `%d` of a natural number is a dot-free decimal string whose value is that number |
| Versions.Split | src/xlutil/__init__.py:307 | str.split(".") yields at least one piece, and no piece holds a dot |
| Versions.JoinSplit | src/xlutil/__init__.py:307 | joining the pieces of split(".") with dots gives the string back |
| Versions.SplitJoin | src/xlutil/__init__.py:307 | splitting a dot-join of dot-free pieces gives the pieces back |
| Versions.PartsOfPack | src/xlutil/__init__.py:66-83 | packing four parts of 0..255 gives a value whose getters return those parts |
| Versions.PackOfParts | src/xlutil/__init__.py:66-83 | every 32-bit value is the packing of its four getter parts |
| Versions.PartsInjective | src/xlutil/__init__.py:69-107 | two values are equal if and only if their four parts are equal |
| Versions.Convert | src/xlutil/__init__.py:40-62 | a missing argument is 0, an int is itself, and a string converts if and only if it is decimal, otherwise int() fails |
| Versions.CheckPart | src/xlutil/__init__.py:42-64 | a part is accepted if and only if it converts to 0..255; otherwise the error names the part and the value |
| Versions.Create | src/xlutil/__init__.py:39-67 | a version is created if and only if all four parts are valid; its parts are the converted arguments; the first bad part, in a, b, c, d order, decides the error |
| Versions.CreateInts | src/xlutil/__init__.py:39-67 | four ints give a version if and only if each is in 0..255, and that version is their packing |
| Versions.CreateDefaults | src/xlutil/__init__.py:47-64 | omitted b, c and d default to 0 |
| Versions.Parse | src/xlutil/__init__.py:297-319 | None or the empty string is an error; more than four pieces is a malformed-version error; a result is always a valid value |
| Versions.ParseParts | src/xlutil/__init__.py:307-316 | a successful parse has one to four decimal pieces; part i is the value of piece i, and the parts after the last piece are 0 |
| Versions.JoinPieces | src/xlutil/__init__.py:230-240 | the printed form is the dot-join of three pieces when d is 0, otherwise of four |
| Versions.ParseToString | src/xlutil/__init__.py:297-319 | parsing the printed form of a valid value gives that value back |
| Versions.SplitToString | src/xlutil/__init__.py:230-240 | splitting the printed form at its dots gives the decimal strings of the parts: three when d is 0, four otherwise |
| Versions.LtIsLexicographic | src/xlutil/__init__.py:109-136 | `__lt__` holds exactly when (a, b, c, d) is lexicographically smaller |
| Versions.LtStrictTotalOrder | src/xlutil/__init__.py:109-136 | `__lt__` is irreflexive, transitive and total on valid values |
| Versions.LexLessTransitive | src/xlutil/__init__.py:109-136 | the lexicographic order on equal-length sequences is transitive |
| Versions.LexLessTotal | src/xlutil/__init__.py:109-136 | two equal-length sequences are equal or one is lexicographically smaller |
| Versions.LeIsLtOrEq | src/xlutil/__init__.py:138-167 | `__le__` holds exactly when `__lt__` or `__eq__` holds |
| Versions.GtGeMirror | src/xlutil/__init__.py:169-228 | `__gt__` is `__lt__` with its arguments swapped, and `__ge__` is `__le__` swapped |
| Versions.LtIsNotNumeric | src/xlutil/__init__.py:109-136 | the order compares a first, so 0.0.0.1 sorts below 1.0.0.0 although its packed int is larger |
| Versions.StepMajor | src/xlutil/__init__.py:242-252 | stepping succeeds if and only if a < 255; the result is (a+1, 0, 0, 0), which is strictly greater; otherwise it is the out-of-range error |
| Versions.StepMinor | src/xlutil/__init__.py:254-265 | stepping succeeds if and only if b < 255; the result is (a, b+1, 0, 0), which is strictly greater |
| Versions.StepDecimal | src/xlutil/__init__.py:267-279 | stepping succeeds if and only if c < 255; the result is (a, b, c+1, 0), which is strictly greater |
| Versions.StepMicro | src/xlutil/__init__.py:281-294 | stepping succeeds if and only if d < 255; the result is (a, b, c, d+1), which is strictly greater |
| Versions.DecimalVersion.New | src/xlutil/__init__.py:39-67 | the object is created with the packed value exactly when Create succeeds; otherwise the same error is raised |
| Versions.DecimalVersion.SetInt | src/xlutil/__init__.py:89-93 | assigning an int stores it as the value |
| Versions.DecimalVersion.SetString | src/xlutil/__init__.py:95-96 | assigning a string stores its parse; a parse error leaves the value unchanged |
| Versions.DecimalVersion.SetVersion | src/xlutil/__init__.py:97-98 | assigning another version copies its value |
| Versions.DecimalVersion.DoStepMajor | src/xlutil/__init__.py:242-252 | the new value is StepMajor of the old one; at a = 255 the call fails and the value is unchanged |
| Versions.DecimalVersion.DoStepMinor | src/xlutil/__init__.py:254-265 | the new value is StepMinor of the old one; at b = 255 the call fails and the value is unchanged |
| Versions.DecimalVersion.DoStepDecimal | src/xlutil/__init__.py:267-279 | the new value is StepDecimal of the old one; at c = 255 the call fails and the value is unchanged |
| Versions.DecimalVersion.DoStepMicro | src/xlutil/__init__.py:281-294 | the new value is StepMicro of the old one; at d = 255 the call fails and the value is unchanged |
| HexDump.HexValueOfDigit | src/xlutil/__init__.py:462 | decoding a lower-case hex digit gives its value |
| HexDump.DumpByteSlice | src/xlutil/__init__.py:458-464 | the loop's output is the hex text of the bytes |
| HexDump.HexOfPairs | src/xlutil/__init__.py:458-464 | the text is twice as long as the input, and characters 2i and 2i+1 are the `%02x` of byte i |
| HexDump.UnhexHexOf | src/xlutil/__init__.py:458-464 | decoding the hex text gives the bytes back |
| LockedContext.FindIsFirstBinding | xlutil/context.py:50-74 | the lookup finds v if and only if some level binds the name to v and no earlier level binds it |
| LockedContext.FindNoneIsUnbound | xlutil/context.py:50-74 | the lookup finds nothing if and only if no level binds the name |
| LockedContext.MaskAndUncover | xlutil/context.py:29-90 | a binding masks the ancestors' bindings, and unbinding it uncovers them |
| LockedContext.Context.constructor | xlutil/context.py:19-27 | a new context is empty and has the given parent |
| LockedContext.Context.New | xlutil/context.py:19-27 | a parent that is not a context is a ValueError; otherwise the context is empty, with no parent or the given one |
| LockedContext.Context.Bind | xlutil/context.py:29-48 | a None name or value is a ValueError and changes nothing; otherwise the binding is added or replaced |
| LockedContext.Context.Lookup | xlutil/context.py:50-74 | the result is the resolution of the name along the parent chain: a None name is an error, and otherwise the first level that binds it wins |
| LockedContext.Context.Unbind | xlutil/context.py:76-90 | a None name is a ValueError; a name not bound here is a KeyError; otherwise only this level's binding is removed |
| LockedContext.Context.Contains | xlutil/context.py:92-102 | `in` holds exactly when the name is not None and is bound at this level |
| LockedContext.Context.Keys | xlutil/context.py:104-114 | keys() lists each name bound at this level exactly once |
| LockedContext.Context.Len | xlutil/context.py:116-120 | len() is the number of bindings at this level; it is 0 exactly when there are none |
| LockedContext.Context.SetParent | xlutil/context.py:125-136 | a new parent that is not a context or None is a ValueError and keeps the old parent |
| LockedContext.NestedUnbind | tests/test_context.py:46-56 | in three nested contexts the innermost binding of foo wins; unbinding it uncovers the middle one |
| LockedContext.CutParent | tests/test_context.py:60-68 | a root binding is found two levels down until the parent is set to None |
| PlainContext.Context.constructor | src/xlutil/context.py:26-29 | a new context is empty and has the given parent |
| PlainContext.Context.Bind | src/xlutil/context.py:38-55 | a None name or object is a ContextError and changes nothing; otherwise the binding is stored |
| PlainContext.Context.Lookup | src/xlutil/context.py:57-77 | a None name is a ContextError; a local binding is returned; an unbound name with no parent is None; otherwise `parent[name]` gives a mapping parent's value or KeyError, and a TypeError for a Context or any other parent |
| PlainContext.Context.Unbind | src/xlutil/context.py:79-92 | a None name is a ContextError; deleting an unbound name is a KeyError; otherwise the binding is removed |
| PlainContext.Context.Size | src/xlutil/context.py:94-97 | size() is the number of bindings, and 0 exactly when there are none |
| PlainContext.Context.SetParent | src/xlutil/context.py:106-117 | the parent is replaced by any value, without a check |
| PlainContext.SimpleBindings | tests/test_context.py:39-44 | two bindings give size 2, and each is found again |
| PlainContext.ParentFallbackFails | src/xlutil/context.py:75-76 | a name bound only in a Context parent makes lookup fail with TypeError |
| PlainContext.MappingParentAnswers | src/xlutil/context.py:75-76 | with a dict as parent, an unbound name is looked up in the dict: its value, or KeyError |
| FtLog.NewLogEntry | src/xlutil/ftlog.py:25-38 | the entry keeps every field; owner is stored as a one-element tuple |
| FtLog.EqualsIsFieldwise | src/xlutil/ftlog.py:76-85 | two entries are equal if and only if all six fields agree; an entry never equals a non-entry |
| FtLog.EqualsIsEquality | src/xlutil/ftlog.py:76-85 | `__eq__` on entries is value equality, so it is symmetric |
| FtLog.StripLeft | src/xlutil/ftlog.py:104 | lstrip returns a suffix; everything it drops is whitespace (any character `str.isspace` accepts, the Unicode spaces included), and what it keeps does not start with whitespace |
| FtLog.StripRight | src/xlutil/ftlog.py:104 | rstrip returns a prefix; everything it drops is whitespace, and what it keeps does not end with whitespace |
| FtLog.Strip | src/xlutil/ftlog.py:104 | strip returns a slice of the text that neither starts nor ends with whitespace, and everything before and after that slice is whitespace |
| FtLog.StripKeepsText | src/xlutil/ftlog.py:104 | text holding any character that is not whitespace never strips to the empty string |
| FtLog.StripNoWhitespace | src/xlutil/ftlog.py:104 | strip leaves text that already has no leading or trailing whitespace unchanged |
| FtLog.PathJoin | src/xlutil/ftlog.py:100 | os.path.join: an absolute second part replaces the first; otherwise a '/' is put between the two unless the first is empty or already ends in '/' |
| FtLog.LogLine | src/xlutil/ftlog.py:143 | the line is the date, a space, the time, a space, the message and a newline, at those positions |
| FtLog.ActualLog.constructor | src/xlutil/ftlog.py:92-116 | the log's path is the join of the manager's directory and name + ".log"; its copy is that path stripped; the handle is the descriptor |
| FtLog.ActualLog.New | src/xlutil/ftlog.py:108-116 | a negative open_cft_log status is a RuntimeError; otherwise a log with that handle and nothing sent |
| FtLog.ActualLog.Log | src/xlutil/ftlog.py:138-153 | the returned line is the formatted log line, and exactly that line goes to log_msg |
| FtLog.ActualLog.LogFileName | src/xlutil/ftlog.py:155-158 | log_file_name is the stripped path |
| FtLog.LogMgr.constructor | src/xlutil/ftlog.py:164-175 | a new manager has no logs and keeps its directory, "logs" when none is given; the init_cft_logger call leaves logNdx at -1 and every slot of the descriptor table empty |
| FtLog.LogMgr.Open | src/xlutil/ftlog.py:177-188 | a name already open is a ValueError; a failed open is a RuntimeError and leaves the map unchanged; otherwise the new log is recorded under its name |
| FtLog.LogMgr.Close | src/xlutil/ftlog.py:190-194 | the map is emptied and close_cft_logger's status is returned |
| FtLog.LogMgr.LogDir | src/xlutil/ftlog.py:196-199 | returns the directory |
| FtLog.FooLogPath | tests/test_log_mgr.py:28-33 | the log "foo" under "logs" has the path "logs/foo.log" |
| FtLog.OpenFoo | tests/test_log_mgr.py:28-33 | `LogMgr('logs').open('foo').log_file_name` is "logs/foo.log" |
| CLogState.LogDesc.constructor | src/extsrc/logBufs.c:134-150 | a zero-filled descriptor with the struct's array sizes, carrying both names |
| CLogState.Globals.constructor | src/extsrc/cFTLogForPy.h:89-90 | the table has 16 null slots, as C statics start zeroed |
| LogBufs.InitialPage | src/extsrc/logBufs.c:15-20 | page i lies at i * 16384, holds 0 bytes, is 16384 bytes long, and is ACTIVE exactly when i is 0 (READY otherwise) |
| LogBufs.InitLogBuffers | src/extsrc/logBufs.c:8-25 | returns 0; every page of the slot is laid out as InitialPage says; with bufInUse in range the ring is valid |
| LogBufs.LastSlash | src/extsrc/logBufs.c:37-41 | the backward scan finds the last '/', or -1 when there is none |
| LogBufs.DirNameOf | src/extsrc/logBufs.c:42-52 | the path is the directory part, '/', then the name part, and the name holds no '/' |
| LogBufs.SplitPath | src/extsrc/logBufs.c:29-56 | ENAMETOOLONG exactly when the path is over 256 characters; -1 exactly when it has no '/'; otherwise 0 with both parts |
| LogBufs.WalkPrefixes | src/extsrc/logBufs.c:96-106 | checkDir is called on path prefixes ending just before a '/', in order, then on the whole path |
| LogBufs.WalkPassed | src/extsrc/logBufs.c:98-104 | every prefix checked before the last call was accepted |
| LogBufs.WalkComplete | src/extsrc/logBufs.c:98-105 | when every check passes, each prefix before a '/' (after the first character) is checked once, then the whole path |
| LogBufs.WalkStopped | src/extsrc/logBufs.c:101-105 | after a failed check the loop stops, and the same prefix is checked once more for the final status |
| LogBufs.WalkVerdict | src/extsrc/logBufs.c:105-106 | the status is checkDir of the last path checked |
| LogBufs.CheckDirs | src/extsrc/logBufs.c:88-107 | the loop's status and call sequence are the reference walk's |
| LogBufs.InitLogDescs | src/extsrc/logBufs.c:122-126 | every slot is null afterwards |
| LogBufs.CLogDealloc | src/extsrc/logBufs.c:112-120 | the slot is null afterwards; every other slot is unchanged |
| LogBufs.InstallDesc | src/extsrc/logBufs.c:175-177 | slot logNdx holds a fresh descriptor with the two names and the fd |
| LogBufs.OpenLogFile | src/extsrc/logBufs.c:161-181 | NULL gives -1; a long path gives ENAMETOOLONG; no '/' gives -1; a failed walk gives its status; in each of these cases nothing is installed; otherwise open()'s result is returned and the descriptor installed |
| LogBufs.OpenLogFileChecked | src/extsrc/logBufs.c:152-181 | every failure before open() gives -1 with nothing installed; otherwise open()'s result with the descriptor installed |
| EvLoop.TimedWriterCB | src/extsrc/evLoop.c:16-72 | acts on the descriptor at logNdx: WRITE_PENDING is always cleared; a page in use that holds bytes is appended to the file, becomes READY and empty, WRITE_IN_PROGRESS is clear and bufInUse moves on; an empty page changes nothing else; fd and count stay |
| EvLoop.FlushInUse | src/extsrc/evLoop.c:23-66 | the ring stays valid; WRITE_PENDING is cleared; a page holding bytes has them appended to the file, its flags and offset reset, WRITE_IN_PROGRESS cleared and bufInUse advanced modulo 4; the other pages, fd and count are unchanged |
| EvLoop.ScheduleWrite | src/extsrc/evLoop.c:87-102 | WRITE_PENDING is set afterwards, the other flag bits are unchanged, and 0 is returned |
| ModFunc.Splice | src/extsrc/modFunc.c:202-203 | memcpy puts the message at the offset and leaves every other byte unchanged |
| ModFunc.RingDistance | src/extsrc/modFunc.c:191-199 | every other page of the ring is reached in 1 to 3 steps from bufInUse |
| ModFunc.FirstReadyIgnoresStart | src/extsrc/modFunc.c:185-199 | marking the current page FULL does not change which READY page the search finds first |
| ModFunc.NextReady | src/extsrc/modFunc.c:191-199 | the search loop stops at the first READY page after bufInUse in ring order |
| ModFunc.Rotate | src/extsrc/modFunc.c:183-199 | the page in use becomes FULL, and bufInUse moves to the first READY page after it |
| ModFunc.PutAt | src/extsrc/modFunc.c:202-203 | the message's bytes land at the page's offset, the offset grows by its length, and the rest of the buffer is unchanged |
| ModFunc.LogMsgAt | src/extsrc/modFunc.c:174-208 | the count steps modulo 2^32 and fd, file and flags stay; a message that fits is copied after the current page's bytes and its offset grows; one that does not marks that page FULL and is copied to the start of the first READY page after it; no other page or byte changes |
| ModFunc.LogMsg | src/extsrc/modFunc.c:159-169 | a NULL message changes nothing; a present one changes slot ndx's count, pages, bytes and bufInUse exactly as LogMsgAt states |
| ModFunc.InitCftLogger | src/extsrc/modFunc.c:5-18 | logNdx is -1 and every slot is null; the writer's status is returned and recorded as whether the thread started |
| ModFunc.FinishOpen | src/extsrc/modFunc.c:29-45 | a negative fd steps logNdx back and gives -1; a null slot is dereferenced; otherwise the pages are laid out and the index returned |
| ModFunc.OpenCftLog | src/extsrc/modFunc.c:26-46 | as written: slots other than old logNdx + 1 never change; a path over 256 characters dereferences an empty slot, or hands out the stale descriptor there, untouched but for its pages laid out afresh; a refused path changes nothing; a failed open() gives -1 and leaves a fresh descriptor with the path's parts, its fd and count 0; an accepted path with a good fd opens slot old logNdx + 1, fresh and empty |
| ModFunc.OpenCftLogChecked | src/extsrc/modFunc.c:26-46 | the result is non-negative if and only if the path is accepted and open() succeeds; it is then old logNdx + 1 with a fresh, laid out descriptor; a failure is -1 with logNdx unchanged |
| ModFunc.LongPathCrashes | src/extsrc/modFunc.c:26-46 | a first open of a 257-character path dereferences NULL |
| ModFunc.CloseSnoc | src/extsrc/modFunc.c:111-130 | adding one log to the reference close loop applies one step: fsync when the page holds bytes, then close when the status is 0 and fd is non-negative |
| ModFunc.CloseBelow | src/extsrc/modFunc.c:111-130 | only logs in the table are closed |
| ModFunc.ClosedIff | src/extsrc/modFunc.c:111-130 | log i is closed if and only if the status carried into its step, or its fsync, is 0 and its fd is non-negative |
| ModFunc.CloseAllGood | src/extsrc/modFunc.c:111-130 | when every fsync and close succeeds, all logs are closed and the status is 0 |
| ModFunc.Pending | src/extsrc/modFunc.c:112-118 | a descriptor's pending bytes are its page in use, one byte per offset |
| ModFunc.FlushOnClose | src/extsrc/modFunc.c:111-130 | for each open log, the loop fsyncs when the page in use holds bytes and then closes; its status and closed set are the reference loop's |
| ModFunc.DeallocAll | src/extsrc/modFunc.c:138-139 | logNdx is -1 afterwards; every slot up to the old logNdx is null; higher slots are unchanged |
| ModFunc.CloseCftLogger | src/extsrc/modFunc.c:55-143 | the status and closed logs are the reference loop's over the pending pages, fds and fsync/close results; then every open slot is freed and logNdx is -1 |
| CFTLogForPy.JoinAsWritten | src/extsrc/cFTLogForPy.c:83-93 | the text as written is a prefix of logDir + "/" + logName, at most 257 characters long |
| CFTLogForPy.JoinOverflows | src/extsrc/cFTLogForPy.c:90-91 | an empty logDir and a 256-character logName give 257 characters, which with the NUL overflow s[257] |
| CFTLogForPy.JoinFits | src/extsrc/cFTLogForPy.c:83-93 | when the join fits in 256 characters, the text is the whole join |
| CFTLogForPy.SplitJoin | src/extsrc/cFTLogForPy.c:83-93 | joining the parts of a path that splitPath accepted gives the path back |
| CFTLogForPy.LogForPy.constructor | src/extsrc/cFTLogForPy.c:28-32 | PyObject_New leaves objNdx as whatever it held |
| CFTLogForPy.LogForPy.Init | src/extsrc/cFTLogForPy.c:44-56 | through `_open_cft_log` as written: objNdx is written exactly when an index comes back; slots other than old logNdx + 1 never change; an over-long path dereferences an empty slot, or takes the stale descriptor there with its old fields and fresh pages; a failed open() leaves a fresh descriptor with the path's parts, its fd and count 0; an accepted path with a good fd opens slot old logNdx + 1, fresh and empty, whose two parts join back to the path; other failures leave objNdx and logNdx |
| CFTLogForPy.StaleLogReused | src/extsrc/modFunc.c:26-46 | after a first open whose open() fails, an over-long path hands a second object slot 0 with the failed open's fd |
| CFTLogForPy.LogForPy.GetCount | src/extsrc/cFTLogForPy.c:61-68 | returns the message count of the object's slot |
| CFTLogForPy.LogForPy.GetNdx | src/extsrc/cFTLogForPy.c:72-75 | returns objNdx |
| CFTLogForPy.LogForPy.GetPathToLog | src/extsrc/cFTLogForPy.c:79-96 | at most 256 characters and a prefix of the join; it is the whole join when that fits; it agrees with the text as written wherever that fits |
| CFTLogForPy.LogForPy.LogMsg | src/extsrc/cFTLogForPy.c:102-112 | the object's log changes exactly as LogMsgAt states: count, pages, bytes and bufInUse |
| CFTLogForPy.FirstLog | tests/test_cft_log_obj.py:56-68 | after init_cft_logger, a first object opened on a path has ndx 0 and count 0, and gives the path back |
| CFTLogForPy.CountMessages | tests/test_cft_log_obj.py:70-97 | after a first open, count() is k after the k-th of up to 128 short messages |

## Left out

- Threads, the mutexes and the libev event loop are not modelled. Every
  operation runs alone. The timer callback is a method a caller invokes, and
  arming a timer does nothing.
- Sleeps (`usleep`), `perror` and the text of error messages are left out.
- Calls into the operating system are parameters: `stat`/`mkdir` (as
  `checkDir`), `open`, `fsync` and `close`. `write` always delivers its bytes.
- The writer thread (`threading.c`) is not part of this model.
  `init_cft_logger` takes its start status as a parameter.
- FtLog.ActualLog.New, FtLog.LogMgr.Open: the result of `open_cft_log` is
  the parameter `openStatus`, and these members do not touch the
  descriptor table. The effect of an open on the table is modelled only by
  ModFunc.OpenCftLog.
- FtLog.LogMgr.Close: the result of `close_cft_logger` is the parameter
  `closed`, and the table is not touched. ModFunc.CloseCftLogger models
  the close.
- FtLog.ActualLog.Log: the line handed to `log_msg` is recorded in `sent`.
  What `log_msg` does to a descriptor is modelled only by ModFunc.LogMsg.
- LogBufs.InstallDesc: `cLogAllocInit` is assumed to succeed. The NULL a
  failed `calloc` would give is not modelled.
- LogBufs.SplitPath, LogBufs.OpenLogFile, ModFunc.OpenCftLog,
  CFTLogForPy.JoinAsWritten, CFTLogForPy.LogForPy.GetPathToLog: paths are
  C byte strings, one character per byte, so lengths count characters.
  Non-ASCII text, whose UTF-8 form is longer than its character count, is
  not modelled.
- PopCount.Popcount32, PopCount.Popcount64: inputs are unsigned 32-bit and
  64-bit words. The Python functions accept any int, negative or wider, and
  give the bit count of n mod 2^32 or n mod 2^64. Those inputs are not
  modelled.
- ModFunc.FlushOnClose: the flush returns each log's pending bytes as
  `written` instead of appending them to the ghost file. The BEING_WRITTEN
  mark on a page is not modelled either. In ModFunc.CloseCftLogger every
  slot up to logNdx is then freed by ModFunc.DeallocAll, so the flushed
  bytes reach the caller only as `written`.
- ModFunc.CloseCftLogger: the same limits apply as for FlushOnClose.
  - The model keeps the source's handling of a failed open: the descriptor it
    leaves above logNdx is never freed.
- EvLoop.TimedWriterCB: the temporary BEING_WRITTEN page state, and
  WRITE_IN_PROGRESS being set while the write runs, are not modelled. With
  no other thread running, only the final state can be seen, in which
  WRITE_IN_PROGRESS is clear.
- These defects of the C code are kept in the model as written. They are not
  corrected:
  - The callback and `scheduleWrite` act on `logDescs[logNdx]`, whatever
    their argument.
  - Neither the callback nor the close flush looks for FULL pages. The
    callback writes the page in use whatever its flags, then moves bufInUse
    on without a check, so a FULL page is written only when that advance
    lands on it. At close, bytes on FULL pages other than the page in use
    are lost.
  - The page `_log_msg` moves to is not marked ACTIVE.
  - A failed `open()` leaves its new descriptor in the table.
- ModFunc.LogMsg: a message that does not fit requires a READY spare page.
  The C loop otherwise never ends.
  - Messages are required to be shorter than a page; the source itself
    leaves longer ones undefined.
  - Messages are modelled as bytes with no NUL terminator.
- ModFunc.OpenCftLog: requires logNdx below 15, so a 17th log is not
  modelled. The C code would index past the table.
- The `fd >= 0` test in `close_cft_logger` is always true, because the field
  is a `u_int32_t`. It is modelled that way.
- CFTLogForPy.LogForPy.GetCount: the `(long)` cast of the `u_int32_t`
  count is the identity, so it is left out.
- Python C-API plumbing is not modelled: argument parsing, reference counts,
  the type object and module tables.
- Versions.Convert: `int()` is modelled on decimal digit strings only. The
  leniency of Python's `int()` is left out: surrounding whitespace, a sign,
  underscores, and non-int, non-str arguments.
- Versions.DecimalVersion.SetInt: requires a value a DecimalVersion can
  hold. The Python setter stores any int, and then the part getters are no
  longer the parts it was packed from.
- The `isinstance` branch of `__eq__` and a `value` assignment of some
  other type (a RuntimeError) are not modelled. Both sides are always
  DecimalVersion values.
- FtLog.ActualLog.Log: the date and time are parameters. The calls to
  `time.localtime` and `strftime` that produce them are not modelled.
- LockedContext.Context.New, LockedContext.Context.constructor: the keyword
  arguments of `Context.__init__` are not modelled. With any keyword given,
  `{kwargs}` tries to put a dict into a set and raises TypeError.
- Timestamps, regular expressions from wildcards, `get_exclusions`,
  `Namespace`, process locks and `__version__` are left out.
- Cyclic parent chains of contexts are not modelled. A chain is a finite
  ghost sequence.
- The overflow of `log_file()` as written is latent. A descriptor that init
  installs from an accepted path has parts that join back to that path, at
  most 256 characters (CFTLogForPy.LogForPy.Init). Only parts no open
  accepts reach 257, as CFTLogForPy.JoinOverflows shows (see Findings).

## Findings

| source | as written | input that shows it | evidently intended | confidence | as-written member | corrected member |
|---|---|---|---|---|---|---|
| src/xlutil/context.py:75-76 | when a name is not bound locally, lookup falls back with `self._parent[name]`, but Context defines no `__getitem__` | a parent binds "wombat" and its child looks it up: TypeError | `self._parent.lookup(name)`, returning the first binding along the parent chain | not executed | PlainContext.ParentFallbackFails | LockedContext.Context.Lookup |
| src/extsrc/modFunc.c:28-45 | `_open_cft_log` treats any non-negative result of `openLogFile` as a descriptor, but `openLogFile` returns the positive code ENAMETOOLONG for a path over 256 characters, and installs nothing | a first open of a 257-character path: `initLogBuffers` dereferences the NULL slot | every failure before `open()` gives -1, and logNdx is stepped back | not executed | ModFunc.LongPathCrashes | ModFunc.OpenCftLogChecked |
| src/extsrc/cFTLogForPy.c:90-91 | `strncat(s, p->logName, bytesLeft+1)` may append one character more than the 257-byte buffer `s` has room for with its NUL | logDir "" and a logName of 256 characters: 257 characters plus the NUL | a limit of `bytesLeft`, so the text is at most MAX_PATH_LEN characters | not executed; latent, because no descriptor init installs has such parts | CFTLogForPy.JoinOverflows | CFTLogForPy.LogForPy.GetPathToLog |
