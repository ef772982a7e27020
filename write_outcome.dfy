/**
 * What file_write promises, stated over the whole workflow: the status it returns, the
 * handle it releases, the writes it makes and the progress markers it prints.
 */
module WriteOutcome {
  import opened FileXApi
  import opened Trace
  import opened Script
  import opened WriteBuffer
  import opened Workflows
  import opened WriteProperties

  /**
   * The status file_write returns once the file is open, with the truncate answered at c:
   * the first failed step among the truncate, the writes and waits and the stamping is
   * returned after the clean-up close (unless that close fails), and the first failed step
   * among the final close, the flush and the entry query is returned as it is.
   */
  function HeldExpected(cfg: Config, r: seq<Status>, c: nat): Status
  {
    var b := c + 1 + 2 * cfg.writeTimes;
    var p := FirstFailure(r, c, b + 3);
    if p < b + 3 then AfterCleanup(Scripted(r, p), Scripted(r, p + 1))
    else
      var q := FirstFailure(r, b + 3, b + 6);
      if q < b + 6 then Scripted(r, q) else FX_SUCCESS
  }

  /**
   * The status file_write returns, with the gate answered at a: a closed gate and a missing
   * file are not errors, and an open that fails otherwise returns its status.
   */
  function WriteExpected(cfg: Config, r: seq<Status>, a: nat): Status
  {
    if Scripted(r, a) != FX_SUCCESS then FX_SUCCESS
    else if Scripted(r, a + 1) == FX_NOT_FOUND then FX_SUCCESS
    else if Scripted(r, a + 1) != FX_SUCCESS then Scripted(r, a + 1)
    else HeldExpected(cfg, r, a + 2)
  }

  /**
   * Once the file is open, file_write succeeds exactly when none of its steps fails: the
   * truncate, every write and wait, the stamping, the close, the flush and the query.
   */
  lemma HeldExpectedMeans(cfg: Config, r: seq<Status>, c: nat)
    ensures var b := c + 1 + 2 * cfg.writeTimes;
      HeldExpected(cfg, r, c) == FX_SUCCESS <==> FirstFailure(r, c, b + 6) == b + 6
  {
    var b := c + 1 + 2 * cfg.writeTimes;
    FirstFailureSplit(r, c, b + 3, b + 6);
  }

  /** FinishStatus is the first-failure rule applied to the six steps after the loop. */
  lemma FinishStatusFirstFailure(r: seq<Status>, b: nat)
    ensures var p := FirstFailure(r, b, b + 3);
      var q := FirstFailure(r, b + 3, b + 6);
      FinishStatus(r, b) ==
        if p < b + 3 then AfterCleanup(Scripted(r, p), Scripted(r, p + 1))
        else if q < b + 6 then Scripted(r, q)
        else FX_SUCCESS
  {
    assert FirstFailure(r, b + 2, b + 3) == if Scripted(r, b + 2) != FX_SUCCESS then b + 2 else b + 3;
    assert FirstFailure(r, b + 5, b + 6) == if Scripted(r, b + 5) != FX_SUCCESS then b + 5 else b + 6;
  }

  lemma HeldExpectedLoopFails(cfg: Config, r: seq<Status>, c: nat)
    requires Scripted(r, c) == FX_SUCCESS && LoopFails(cfg, 0, r, c + 1)
    ensures var p := FirstFailure(r, c + 1, c + 1 + 2 * cfg.writeTimes);
      HeldExpected(cfg, r, c) == AfterCleanup(Scripted(r, p), Scripted(r, p + 1))
  {
    var b := c + 1 + 2 * cfg.writeTimes;
    assert FirstFailure(r, c, b + 3) == FirstFailure(r, c + 1, b + 3);
    FirstFailureSplit(r, c + 1, b, b + 3);
  }

  lemma HeldExpectedFinishes(cfg: Config, r: seq<Status>, c: nat)
    requires Scripted(r, c) == FX_SUCCESS && !LoopFails(cfg, 0, r, c + 1)
    ensures HeldExpected(cfg, r, c) == FinishStatus(r, c + 1 + 2 * cfg.writeTimes)
  {
    var b := c + 1 + 2 * cfg.writeTimes;
    assert FirstFailure(r, c, b + 3) == FirstFailure(r, c + 1, b + 3);
    FirstFailureSplit(r, c + 1, b, b + 3);
    FinishStatusFirstFailure(r, b);
  }

  lemma HeldStatusTruncateFails(cfg: Config, w: World)
    requires cfg.Valid() && At(w, 0) != FX_SUCCESS
    ensures WriteHeld(cfg, w).0 == HeldExpected(cfg, w.replies, w.answered)
  {
    HeldTruncateFails(cfg, w);
    assert FirstFailure(w.replies, w.answered, w.answered + 4 + 2 * cfg.writeTimes) == w.answered;
    assert HeldExpected(cfg, w.replies, w.answered) == AfterCleanup(At(w, 0), At(w, 1));
  }

  lemma HeldStatusLoopFails(cfg: Config, w: World)
    requires cfg.Valid() && At(w, 0) == FX_SUCCESS && LoopFails(cfg, 0, w.replies, w.answered + 1)
    ensures WriteHeld(cfg, w).0 == HeldExpected(cfg, w.replies, w.answered)
  {
    HeldLoopFails(cfg, w);
    HeldExpectedLoopFails(cfg, w.replies, w.answered);
  }

  lemma HeldStatusFinishes(cfg: Config, w: World)
    requires cfg.Valid() && At(w, 0) == FX_SUCCESS && !LoopFails(cfg, 0, w.replies, w.answered + 1)
    ensures WriteHeld(cfg, w).0 == HeldExpected(cfg, w.replies, w.answered)
  {
    HeldFinishes(cfg, w);
    HeldExpectedFinishes(cfg, w.replies, w.answered);
  }

  /** The status file_write returns once the file is open is the one HeldExpected gives. */
  lemma HeldStatus(cfg: Config, w: World)
    requires cfg.Valid()
    ensures WriteHeld(cfg, w).0 == HeldExpected(cfg, w.replies, w.answered)
  {
    if At(w, 0) != FX_SUCCESS {
      HeldStatusTruncateFails(cfg, w);
    } else if LoopFails(cfg, 0, w.replies, w.answered + 1) {
      HeldStatusLoopFails(cfg, w);
    } else {
      HeldStatusFinishes(cfg, w);
    }
  }

  /** The status file_write returns is the one WriteExpected gives. */
  lemma WriteStatus(cfg: Config, w: World)
    requires cfg.Valid()
    ensures WriteFlow(cfg, w).0 == WriteExpected(cfg, w.replies, w.answered)
  {
    if At(w, 0) == FX_SUCCESS && At(w, 1) != FX_SUCCESS {
      assert WriteFlow(cfg, w) == WriteOpen(cfg, Ask(w, MediaVerify).1);
    } else if At(w, 0) == FX_SUCCESS {
      WriteOpened(cfg, w);
      HeldStatus(cfg, w.(answered := w.answered + 2, trace := w.trace + [MediaVerify, FileOpen(cfg.fileName, OpenForWrite)]));
    }
  }

  /** The calls after the loop release the handle, by one close, and write nothing. */
  lemma FinishTraceHandle(cfg: Config, r: seq<Status>, b: nat, now: DateTime)
    ensures var f := FinishTrace(cfg, r, b, now);
      && Run(Held, f) == Released
      && forall j | 0 <= j < |f| :: !f[j].FileWrite?
  {
    var stamp := FileDateTimeSet(cfg.fileName, now);
    var f := FinishTrace(cfg, r, b, now);
    var info := DirectoryInformationGet(cfg.fileName);
    if Scripted(r, b) != FX_SUCCESS {
      CloseReleases([SystemTimeGet], []);
      assert f == [SystemTimeGet] + [FileClose] + [];
    } else if Scripted(r, b + 1) != FX_SUCCESS {
      CloseReleases([SystemTimeGet, SystemDateGet], []);
      assert f == [SystemTimeGet, SystemDateGet] + [FileClose] + [];
    } else {
      var pre := [SystemTimeGet, SystemDateGet, stamp];
      if Scripted(r, b + 2) != FX_SUCCESS || Scripted(r, b + 3) != FX_SUCCESS {
        CloseReleases(pre, []);
        assert f == pre + [FileClose] + [];
      } else if Scripted(r, b + 4) != FX_SUCCESS {
        CloseReleases(pre, [MediaFlush]);
        assert f == pre + [FileClose] + [MediaFlush];
      } else {
        CloseReleases(pre, [MediaFlush, info]);
        assert f == pre + [FileClose] + [MediaFlush, info];
      }
    }
  }

  /** The calls after the loop write, wait and mark nothing. */
  lemma FinishTraceQuiet(cfg: Config, r: seq<Status>, b: nat, now: DateTime, k: CallKind)
    requires k == Writes || k == Waits || k == Dots
    ensures Count(FinishTrace(cfg, r, b, now), k) == 0
  {
    var f := FinishTrace(cfg, r, b, now);
    assert forall j | 0 <= j < |f| :: f[j].Kind() != Writes && f[j].Kind() != Waits && f[j].Kind() != Dots;
    CountNone(f, k);
  }

  /** A trace with no write in it pairs every write vacuously. */
  lemma NoWritesPaired(t: seq<Call>, size: nat, data: seq<char>)
    requires forall j | 0 <= j < |t| :: !t[j].FileWrite?
    ensures WritesPaired(t, size, data)
  {
  }

  lemma HeldHandleLoopFails(cfg: Config, r: seq<Status>, c: nat, now: DateTime)
    requires cfg.Valid() && Scripted(r, c) == FX_SUCCESS && LoopFails(cfg, 0, r, c + 1)
    ensures var h := HeldTrace(cfg, r, c, now);
      Run(Held, h) == Released && WritesPaired(h, cfg.writeBufferSize, FixedBuffer(cfg))
  {
    var ft := FileTruncate(cfg.truncateValue);
    var data := FixedBuffer(cfg);
    var loop := LoopTrace(cfg, data, 0, r, c + 1);
    assert HeldTrace(cfg, r, c, now) == [ft] + loop;
    NoWritesPaired([ft], cfg.writeBufferSize, data);
    assert Run(Held, [ft]) == Advance(Run(Held, []), ft);
    LoopTraceHandle(cfg, data, 0, r, c + 1);
    RunAppend(Held, [ft], loop);
    PairedAppend([ft], loop, cfg.writeBufferSize, data);
  }

  lemma HeldHandleFinishes(cfg: Config, r: seq<Status>, c: nat, now: DateTime)
    requires cfg.Valid() && Scripted(r, c) == FX_SUCCESS && !LoopFails(cfg, 0, r, c + 1)
    ensures var h := HeldTrace(cfg, r, c, now);
      Run(Held, h) == Released && WritesPaired(h, cfg.writeBufferSize, FixedBuffer(cfg))
  {
    var ft := FileTruncate(cfg.truncateValue);
    var data := FixedBuffer(cfg);
    var loop := LoopTrace(cfg, data, 0, r, c + 1);
    var fin := FinishTrace(cfg, r, c + 1 + 2 * cfg.writeTimes, now);
    assert HeldTrace(cfg, r, c, now) == [ft] + loop + fin;
    NoWritesPaired([ft], cfg.writeBufferSize, data);
    assert Run(Held, [ft]) == Advance(Run(Held, []), ft);
    LoopTraceHandle(cfg, data, 0, r, c + 1);
    RunAppend(Held, [ft], loop);
    PairedAppend([ft], loop, cfg.writeBufferSize, data);
    FinishTraceHandle(cfg, r, c + 1 + 2 * cfg.writeTimes, now);
    NoWritesPaired(fin, cfg.writeBufferSize, data);
    RunAppend(Held, [ft] + loop, fin);
    PairedAppend([ft] + loop, fin, cfg.writeBufferSize, data);
  }

  /**
   * Once the file is open, file_write starts with the truncate and releases the handle by the
   * one close, and every write it makes is of WRITE_BUFFER_SIZE bytes of the fixed buffer,
   * followed by a wait or a close.
   */
  lemma HeldTraceHandle(cfg: Config, r: seq<Status>, c: nat, now: DateTime)
    requires cfg.Valid()
    ensures var h := HeldTrace(cfg, r, c, now);
      && Run(Held, h) == Released && WritesPaired(h, cfg.writeBufferSize, FixedBuffer(cfg))
      && |h| > 0 && h[0] == FileTruncate(cfg.truncateValue)
  {
    var ft := FileTruncate(cfg.truncateValue);
    if Scripted(r, c) != FX_SUCCESS {
      assert HeldTrace(cfg, r, c, now) == [ft, FileClose];
      RunPair(Held, ft, FileClose);
      NoWritesPaired([ft, FileClose], cfg.writeBufferSize, FixedBuffer(cfg));
    } else if LoopFails(cfg, 0, r, c + 1) {
      HeldHandleLoopFails(cfg, r, c, now);
    } else {
      HeldHandleFinishes(cfg, r, c, now);
    }
  }

  /** Once the file is open, every write, wait and marker of file_write comes from the loop. */
  lemma HeldTraceCounts(cfg: Config, r: seq<Status>, c: nat, now: DateTime, k: CallKind)
    requires cfg.Valid() && Scripted(r, c) == FX_SUCCESS && (k == Writes || k == Waits || k == Dots)
    ensures Count(HeldTrace(cfg, r, c, now), k) == Count(LoopTrace(cfg, FixedBuffer(cfg), 0, r, c + 1), k)
  {
    var ft := FileTruncate(cfg.truncateValue);
    var loop := LoopTrace(cfg, FixedBuffer(cfg), 0, r, c + 1);
    var h := HeldTrace(cfg, r, c, now);
    if LoopFails(cfg, 0, r, c + 1) {
      assert h == [ft] + loop + [];
      assert Count([], k) == 0;
      CountFramed(ft, loop, [], k);
    } else {
      var fin := FinishTrace(cfg, r, c + 1 + 2 * cfg.writeTimes, now);
      assert h == [ft] + loop + fin;
      FinishTraceQuiet(cfg, r, c + 1 + 2 * cfg.writeTimes, now, k);
      CountFramed(ft, loop, fin, k);
    }
  }

  /** With the gate closed, file_write only asks the gate and succeeds. */
  lemma WriteGateClosed(cfg: Config, w: World)
    requires cfg.Valid() && At(w, 0) != FX_SUCCESS
    ensures WriteFlow(cfg, w) == (FX_SUCCESS, w.(answered := w.answered + 1, trace := w.trace + [MediaVerify]))
  {
  }

  /**
   * When the open fails, file_write makes no other call: a missing file counts as success,
   * any other failure is returned as it is.
   */
  lemma WriteOpenFails(cfg: Config, w: World)
    requires cfg.Valid() && At(w, 0) == FX_SUCCESS && At(w, 1) != FX_SUCCESS
    ensures WriteFlow(cfg, w) == (if At(w, 1) == FX_NOT_FOUND then FX_SUCCESS else At(w, 1),
      w.(answered := w.answered + 2, trace := w.trace + [MediaVerify, FileOpen(cfg.fileName, OpenForWrite)]))
  {
    assert WriteFlow(cfg, w) == WriteOpen(cfg, Ask(w, MediaVerify).1);
    assert w.trace + [MediaVerify] + [FileOpen(cfg.fileName, OpenForWrite)]
      == w.trace + [MediaVerify, FileOpen(cfg.fileName, OpenForWrite)];
  }

  /** With the gate passed and the file open, the trace is the opening followed by HeldTrace. */
  lemma WriteTraceOpened(cfg: Config, w: World)
    requires cfg.Valid() && At(w, 0) == FX_SUCCESS && At(w, 1) == FX_SUCCESS
    ensures WriteFlow(cfg, w).1.trace
      == w.trace + [MediaVerify, FileOpen(cfg.fileName, OpenForWrite)] + HeldTrace(cfg, w.replies, w.answered + 2, w.now)
  {
    var opening := [MediaVerify, FileOpen(cfg.fileName, OpenForWrite)];
    WriteOpened(cfg, w);
    WriteHeldTrace(cfg, w.(answered := w.answered + 2, trace := w.trace + opening));
  }

  /**
   * Once file_write has opened the file it closes it exactly once: the truncate comes first,
   * every call before the close acts on the open file, only the flush and the entry query
   * come after it, and every write is of WRITE_BUFFER_SIZE bytes of the fixed buffer,
   * followed by its wait or by the close.
   */
  lemma WriteReleasesHandle(cfg: Config, w: World)
    requires cfg.Valid() && At(w, 0) == FX_SUCCESS && At(w, 1) == FX_SUCCESS
    ensures var t, t' := w.trace, WriteFlow(cfg, w).1.trace;
      var n := |t| + 2;
      && n < |t'| && t'[..n] == t + [MediaVerify, FileOpen(cfg.fileName, OpenForWrite)]
      && t'[n] == FileTruncate(cfg.truncateValue)
      && PhaseFrom(t', n) == Released
      && Count(t', Closes) == Count(t, Closes) + 1
      && (forall j, k | n <= j < k < |t'| && t'[k].FileClose? :: t'[j].WhileHeld())
      && (forall j, k | n <= j < k < |t'| && t'[j].FileClose? :: t'[k].AfterRelease())
      && WritesPaired(t'[n..], cfg.writeBufferSize, FixedBuffer(cfg))
  {
    var fo := FileOpen(cfg.fileName, OpenForWrite);
    var h := HeldTrace(cfg, w.replies, w.answered + 2, w.now);
    WriteTraceOpened(cfg, w);
    HeldTraceHandle(cfg, w.replies, w.answered + 2, w.now);
    OpenThenRelease(w.trace, MediaVerify, fo, h);
  }

  /** Once the buffer is built, the writes, waits and markers of file_write are those of its loop. */
  lemma WriteCountsAreLoops(cfg: Config, w: World, k: CallKind)
    requires cfg.Valid() && WriteReachesBuffer(w.replies, w.answered) && (k == Writes || k == Waits || k == Dots)
    ensures Count(WriteFlow(cfg, w).1.trace, k)
      == Count(w.trace, k) + Count(LoopTrace(cfg, FixedBuffer(cfg), 0, w.replies, w.answered + 3), k)
  {
    var opening := [MediaVerify, FileOpen(cfg.fileName, OpenForWrite)];
    var h := HeldTrace(cfg, w.replies, w.answered + 2, w.now);
    WriteTraceOpened(cfg, w);
    CountAppend(w.trace + opening, h, k);
    CountAppend(w.trace, opening, k);
    CountPair(MediaVerify, FileOpen(cfg.fileName, OpenForWrite), k);
    HeldTraceCounts(cfg, w.replies, w.answered + 2, w.now, k);
  }

  /**
   * The writes, waits and progress markers of the loop of file_write, started at answer e
   * of r, with p its first failure: a complete loop makes WRITE_TIMES writes and waits and
   * prints ceil(WRITE_TIMES / WRITE_ONE_PERCENT) markers; a loop that fails in iteration
   * (p - e) / 2 has made one write more than it completed, a wait more when the wait
   * failed, and the markers of the iterations it completed.
   */
  lemma LoopCounts(cfg: Config, r: seq<Status>, e: nat)
    requires cfg.Valid()
    ensures var u := LoopTrace(cfg, FixedBuffer(cfg), 0, r, e);
      var p := FirstFailure(r, e, e + 2 * cfg.writeTimes);
      var period := cfg.writeOnePercent;
      && (p == e + 2 * cfg.writeTimes ==>
            && Count(u, Writes) == cfg.writeTimes && Count(u, Waits) == cfg.writeTimes
            && Count(u, Dots) == (cfg.writeTimes + period - 1) / period)
      && (p < e + 2 * cfg.writeTimes ==>
            && Count(u, Writes) == (p - e) / 2 + 1 && Count(u, Waits) == (p - e + 1) / 2
            && Count(u, Dots) == Marks(0, (p - e) / 2, period))
  {
    LoopTraceCounts(cfg, FixedBuffer(cfg), 0, r, e);
    MarksClosedForm(cfg.writeTimes, cfg.writeOnePercent);
  }

  /** The writes, waits and progress markers of file_write once it has built the buffer. */
  lemma WriteCounts(cfg: Config, w: World)
    requires cfg.Valid() && WriteReachesBuffer(w.replies, w.answered)
    ensures var t, t' := w.trace, WriteFlow(cfg, w).1.trace;
      var e := w.answered + 3;
      var p := FirstFailure(w.replies, e, e + 2 * cfg.writeTimes);
      var period := cfg.writeOnePercent;
      && (p == e + 2 * cfg.writeTimes ==>
            && Count(t', Writes) == Count(t, Writes) + cfg.writeTimes
            && Count(t', Waits) == Count(t, Waits) + cfg.writeTimes
            && Count(t', Dots) == Count(t, Dots) + (cfg.writeTimes + period - 1) / period)
      && (p < e + 2 * cfg.writeTimes ==>
            && Count(t', Writes) == Count(t, Writes) + (p - e) / 2 + 1
            && Count(t', Waits) == Count(t, Waits) + (p - e + 1) / 2
            && Count(t', Dots) == Count(t, Dots) + Marks(0, (p - e) / 2, period))
  {
    WriteCountsAreLoops(cfg, w, Writes);
    WriteCountsAreLoops(cfg, w, Waits);
    WriteCountsAreLoops(cfg, w, Dots);
    LoopCounts(cfg, w.replies, w.answered + 3);
  }
}
