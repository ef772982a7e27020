/**
 * What file_read promises: with the gate passed and the file open, it seeks, reads (an end
 * of file counting as success), waits for completion, closes the file, queries the entry
 * and dumps what it read; the first failed step is returned after the clean-up close.
 */
module ReadOutcome {
  import opened FileXApi
  import opened Trace
  import opened Script
  import opened Workflows
  import opened WriteProperties
  import opened WriteOutcome

  /** Whether an answer of fx_file_read lets file_read go on. */
  predicate ReadOk(s: Status)
  {
    s == FX_SUCCESS || s == FX_END_OF_FILE
  }

  /** The answers r with an end of file at the read, answer c + 1, counted as success. */
  function ReadView(r: seq<Status>, c: nat): (v: seq<Status>)
    ensures forall j :: Scripted(v, j) == if j == c + 1 && ReadOk(Scripted(r, j)) then FX_SUCCESS else Scripted(r, j)
  {
    if c + 1 < |r| && r[c + 1] == FX_END_OF_FILE then r[c + 1 := FX_SUCCESS] else r
  }

  /**
   * The status of file_read once the file is open, with the seek answered at c: the first
   * failed step among the seek, the read and the wait is returned after the clean-up close
   * (unless that close fails), and the first failure of the close and the entry query is
   * returned as it is.
   */
  function ReadHeldExpected(r: seq<Status>, c: nat): Status
  {
    var p := FirstFailure(ReadView(r, c), c, c + 3);
    if p < c + 3 then AfterCleanup(Scripted(r, p), Scripted(r, p + 1))
    else
      var q := FirstFailure(r, c + 3, c + 5);
      if q < c + 5 then Scripted(r, q) else FX_SUCCESS
  }

  /** The status of file_read with the gate answered at a. */
  function ReadExpected(r: seq<Status>, a: nat): Status
  {
    if Scripted(r, a) != FX_SUCCESS then FX_SUCCESS
    else if Scripted(r, a + 1) == FX_NOT_FOUND then FX_SUCCESS
    else if Scripted(r, a + 1) != FX_SUCCESS then Scripted(r, a + 1)
    else ReadHeldExpected(r, a + 2)
  }

  /**
   * Once the file is open, file_read succeeds exactly when the seek, the wait, the close
   * and the query succeed and the read succeeds or reports the end of the file.
   */
  lemma ReadHeldExpectedMeans(r: seq<Status>, c: nat)
    ensures ReadHeldExpected(r, c) == FX_SUCCESS <==>
      && Scripted(r, c) == FX_SUCCESS && ReadOk(Scripted(r, c + 1))
      && Scripted(r, c + 2) == FX_SUCCESS && Scripted(r, c + 3) == FX_SUCCESS && Scripted(r, c + 4) == FX_SUCCESS
  {
    var v := ReadView(r, c);
    var p := FirstFailure(v, c, c + 3);
    var q := FirstFailure(r, c + 3, c + 5);
    assert Scripted(v, c) == Scripted(r, c) && Scripted(v, c + 2) == Scripted(r, c + 2);
    if p == c + 3 {
      assert Scripted(v, c + 1) == FX_SUCCESS;
      assert q == c + 5 <==> Scripted(r, c + 3) == FX_SUCCESS && Scripted(r, c + 4) == FX_SUCCESS;
    } else {
      assert Scripted(v, p) != FX_SUCCESS;
    }
  }

  /** The calls of file_read once the file is open, with the seek answered at c, reading len bytes. */
  function ReadHeldTrace(cfg: Config, r: seq<Status>, c: nat, len: nat): seq<Call>
  {
    var held := [FileSeek(cfg.seekValue), FileRead(cfg.readBufferSize), EventWait];
    var p := FirstFailure(ReadView(r, c), c, c + 3);
    if p < c + 3 then held[..p - c + 1] + [FileClose]
    else if Scripted(r, c + 3) != FX_SUCCESS then held + [FileClose]
    else if Scripted(r, c + 4) != FX_SUCCESS then held + [FileClose, DirectoryInformationGet(cfg.fileName)]
    else held + [FileClose, DirectoryInformationGet(cfg.fileName), EmitContent(EmittedLength(cfg.readBufferSize, len))]
  }

  lemma ReadSeekFails(cfg: Config, w: World)
    requires At(w, 0) != FX_SUCCESS
    ensures ReadHeld(cfg, w).0 == ReadHeldExpected(w.replies, w.answered)
    ensures ReadHeld(cfg, w).1.trace == w.trace + ReadHeldTrace(cfg, w.replies, w.answered, Scripted(w.lengths, w.readsAnswered))
  {
    var c := w.answered;
    assert FirstFailure(ReadView(w.replies, c), c, c + 3) == c;
    assert w.trace + [FileSeek(cfg.seekValue)] + [FileClose] == w.trace + ([FileSeek(cfg.seekValue)] + [FileClose]);
  }

  lemma ReadReadFails(cfg: Config, w: World)
    requires At(w, 0) == FX_SUCCESS && !ReadOk(At(w, 1))
    ensures ReadHeld(cfg, w).0 == ReadHeldExpected(w.replies, w.answered)
    ensures ReadHeld(cfg, w).1.trace == w.trace + ReadHeldTrace(cfg, w.replies, w.answered, Scripted(w.lengths, w.readsAnswered))
  {
    var c := w.answered;
    var sk, rd := FileSeek(cfg.seekValue), FileRead(cfg.readBufferSize);
    assert FirstFailure(ReadView(w.replies, c), c, c + 3) == c + 1;
    assert [sk, rd, EventWait][..2] == [sk, rd];
    assert w.trace + [sk] + [rd] + [FileClose] == w.trace + ([sk, rd] + [FileClose]);
  }

  lemma ReadWaitFails(cfg: Config, w: World)
    requires At(w, 0) == FX_SUCCESS && ReadOk(At(w, 1)) && At(w, 2) != TX_SUCCESS
    ensures ReadHeld(cfg, w).0 == ReadHeldExpected(w.replies, w.answered)
    ensures ReadHeld(cfg, w).1.trace == w.trace + ReadHeldTrace(cfg, w.replies, w.answered, Scripted(w.lengths, w.readsAnswered))
  {
    var c := w.answered;
    var sk, rd := FileSeek(cfg.seekValue), FileRead(cfg.readBufferSize);
    assert FirstFailure(ReadView(w.replies, c), c, c + 3) == c + 2;
    assert [sk, rd, EventWait][..3] == [sk, rd, EventWait];
    assert w.trace + [sk] + [rd] + [EventWait] + [FileClose] == w.trace + ([sk, rd, EventWait] + [FileClose]);
  }

  /** The calls of file_read from the close on, once the read and the wait have succeeded. */
  function ReleaseTrace(cfg: Config, r: seq<Status>, d: nat, len: nat): seq<Call>
  {
    var info := DirectoryInformationGet(cfg.fileName);
    if Scripted(r, d) != FX_SUCCESS then [FileClose]
    else if Scripted(r, d + 1) != FX_SUCCESS then [FileClose, info]
    else [FileClose, info, EmitContent(EmittedLength(cfg.readBufferSize, len))]
  }

  /** From the close on, file_read returns the first failure of the close and the query as it is. */
  lemma ReleaseOutcome(cfg: Config, len: nat, w: World)
    ensures ReadRelease(cfg, len, w).0 == var q := FirstFailure(w.replies, w.answered, w.answered + 2);
      if q < w.answered + 2 then Scripted(w.replies, q) else FX_SUCCESS
    ensures ReadRelease(cfg, len, w).1.trace == w.trace + ReleaseTrace(cfg, w.replies, w.answered, len)
  {
    var info := DirectoryInformationGet(cfg.fileName);
    var emit := EmitContent(EmittedLength(cfg.readBufferSize, len));
    assert w.trace + [FileClose] + [info] == w.trace + [FileClose, info];
    assert w.trace + [FileClose] + [info] + [emit] == w.trace + [FileClose, info, emit];
  }

  /** With the seek, the read and the wait answered well, file_read goes on to the close. */
  lemma ReadReachesRelease(cfg: Config, w: World)
    requires At(w, 0) == FX_SUCCESS && ReadOk(At(w, 1)) && At(w, 2) == TX_SUCCESS
    ensures ReadHeld(cfg, w) == ReadRelease(cfg, Scripted(w.lengths, w.readsAnswered),
      w.(answered := w.answered + 3, readsAnswered := w.readsAnswered + 1,
         trace := w.trace + [FileSeek(cfg.seekValue), FileRead(cfg.readBufferSize), EventWait]))
  {
    var sk, rd := FileSeek(cfg.seekValue), FileRead(cfg.readBufferSize);
    assert w.trace + [sk] + [rd] + [EventWait] == w.trace + [sk, rd, EventWait];
  }

  lemma ReadCompletes(cfg: Config, w: World)
    requires At(w, 0) == FX_SUCCESS && ReadOk(At(w, 1)) && At(w, 2) == TX_SUCCESS
    ensures ReadHeld(cfg, w).0 == ReadHeldExpected(w.replies, w.answered)
    ensures ReadHeld(cfg, w).1.trace == w.trace + ReadHeldTrace(cfg, w.replies, w.answered, Scripted(w.lengths, w.readsAnswered))
  {
    var c := w.answered;
    var held := [FileSeek(cfg.seekValue), FileRead(cfg.readBufferSize), EventWait];
    var len := Scripted(w.lengths, w.readsAnswered);
    var w3 := w.(answered := c + 3, readsAnswered := w.readsAnswered + 1, trace := w.trace + held);
    ReadReachesRelease(cfg, w);
    ReleaseOutcome(cfg, len, w3);
    assert FirstFailure(ReadView(w.replies, c), c, c + 3) == c + 3;
    assert ReadHeldTrace(cfg, w.replies, c, len) == held + ReleaseTrace(cfg, w.replies, c + 3, len);
    AppendAssoc(w.trace, held, ReleaseTrace(cfg, w.replies, c + 3, len));
  }

  /** file_read once the file is open returns ReadHeldExpected and makes the calls ReadHeldTrace lists. */
  lemma ReadHeldOutcome(cfg: Config, w: World)
    ensures ReadHeld(cfg, w).0 == ReadHeldExpected(w.replies, w.answered)
    ensures ReadHeld(cfg, w).1.trace == w.trace + ReadHeldTrace(cfg, w.replies, w.answered, Scripted(w.lengths, w.readsAnswered))
  {
    if At(w, 0) != FX_SUCCESS {
      ReadSeekFails(cfg, w);
    } else if !ReadOk(At(w, 1)) {
      ReadReadFails(cfg, w);
    } else if At(w, 2) != TX_SUCCESS {
      ReadWaitFails(cfg, w);
    } else {
      ReadCompletes(cfg, w);
    }
  }

  lemma ReadOpened(cfg: Config, w: World)
    requires At(w, 0) == FX_SUCCESS && At(w, 1) == FX_SUCCESS
    ensures ReadFlow(cfg, w)
      == ReadHeld(cfg, w.(answered := w.answered + 2, trace := w.trace + [MediaVerify, FileOpen(cfg.fileName, OpenForRead)]))
  {
    var w1 := Ask(w, MediaVerify).1;
    assert ReadFlow(cfg, w) == ReadOpen(cfg, w1);
    assert w.trace + [MediaVerify] + [FileOpen(cfg.fileName, OpenForRead)] == w.trace + [MediaVerify, FileOpen(cfg.fileName, OpenForRead)];
  }

  /** With the gate closed, file_read only asks the gate and succeeds. */
  lemma ReadGateClosed(cfg: Config, w: World)
    requires At(w, 0) != FX_SUCCESS
    ensures ReadFlow(cfg, w) == (FX_SUCCESS, w.(answered := w.answered + 1, trace := w.trace + [MediaVerify]))
  {
  }

  /**
   * When the open fails, file_read makes no other call: a missing file counts as success,
   * any other failure is returned as it is.
   */
  lemma ReadOpenFails(cfg: Config, w: World)
    requires At(w, 0) == FX_SUCCESS && At(w, 1) != FX_SUCCESS
    ensures ReadFlow(cfg, w) == (if At(w, 1) == FX_NOT_FOUND then FX_SUCCESS else At(w, 1),
      w.(answered := w.answered + 2, trace := w.trace + [MediaVerify, FileOpen(cfg.fileName, OpenForRead)]))
  {
    assert ReadFlow(cfg, w) == ReadOpen(cfg, Ask(w, MediaVerify).1);
    assert w.trace + [MediaVerify] + [FileOpen(cfg.fileName, OpenForRead)]
      == w.trace + [MediaVerify, FileOpen(cfg.fileName, OpenForRead)];
  }

  /** The status file_read returns is the one ReadExpected gives. */
  lemma ReadStatus(cfg: Config, w: World)
    ensures ReadFlow(cfg, w).0 == ReadExpected(w.replies, w.answered)
  {
    if At(w, 0) == FX_SUCCESS && At(w, 1) != FX_SUCCESS {
      ReadOpenFails(cfg, w);
    } else if At(w, 0) == FX_SUCCESS {
      ReadOpened(cfg, w);
      ReadHeldOutcome(cfg, w.(answered := w.answered + 2, trace := w.trace + [MediaVerify, FileOpen(cfg.fileName, OpenForRead)]));
    }
  }

  /**
   * Once the file is open, file_read's calls take the handle from held to released: the open
   * file is used, closed once, and only the query and the dump come after the close.
   */
  lemma ReadHeldTraceHandle(cfg: Config, r: seq<Status>, c: nat, len: nat)
    ensures var h := ReadHeldTrace(cfg, r, c, len);
      Run(Held, h) == Released && |h| > 0 && h[0] == FileSeek(cfg.seekValue)
  {
    var held := [FileSeek(cfg.seekValue), FileRead(cfg.readBufferSize), EventWait];
    var info := DirectoryInformationGet(cfg.fileName);
    var emit := EmitContent(EmittedLength(cfg.readBufferSize, len));
    var p := FirstFailure(ReadView(r, c), c, c + 3);
    if p < c + 3 {
      CloseReleases(held[..p - c + 1], []);
      assert held[..p - c + 1] + [FileClose] + [] == held[..p - c + 1] + [FileClose];
    } else if Scripted(r, c + 3) != FX_SUCCESS {
      CloseReleases(held, []);
      assert held + [FileClose] + [] == held + [FileClose];
    } else if Scripted(r, c + 4) != FX_SUCCESS {
      CloseReleases(held, [info]);
      assert held + [FileClose] + [info] == held + [FileClose, info];
    } else {
      CloseReleases(held, [info, emit]);
      assert held + [FileClose] + [info, emit] == held + [FileClose, info, emit];
    }
  }

  /**
   * Once file_read has opened the file it closes it exactly once: the seek comes first, every
   * call before the close acts on the open file, and only the entry query and the dump come
   * after it.
   */
  lemma ReadReleasesHandle(cfg: Config, w: World)
    requires At(w, 0) == FX_SUCCESS && At(w, 1) == FX_SUCCESS
    ensures var t, t' := w.trace, ReadFlow(cfg, w).1.trace;
      var n := |t| + 2;
      && n < |t'| && t'[..n] == t + [MediaVerify, FileOpen(cfg.fileName, OpenForRead)]
      && t'[n] == FileSeek(cfg.seekValue)
      && PhaseFrom(t', n) == Released
      && Count(t', Closes) == Count(t, Closes) + 1
      && (forall j, k | n <= j < k < |t'| && t'[k].FileClose? :: t'[j].WhileHeld())
      && (forall j, k | n <= j < k < |t'| && t'[j].FileClose? :: t'[k].AfterRelease())
  {
    var fo := FileOpen(cfg.fileName, OpenForRead);
    var len := Scripted(w.lengths, w.readsAnswered);
    var h := ReadHeldTrace(cfg, w.replies, w.answered + 2, len);
    ReadOpened(cfg, w);
    ReadHeldOutcome(cfg, w.(answered := w.answered + 2, trace := w.trace + [MediaVerify, fo]));
    ReadHeldTraceHandle(cfg, w.replies, w.answered + 2, len);
    OpenThenRelease(w.trace, MediaVerify, fo, h);
  }

  /**
   * A successful file_read ends by dumping the bytes it read and their terminator: len + 1
   * bytes of the READ_BUFFER_SIZE + 1 byte buffer, or all of it when the read filled it.
   */
  lemma ReadEmits(cfg: Config, w: World)
    requires At(w, 0) == FX_SUCCESS && At(w, 1) == FX_SUCCESS && ReadFlow(cfg, w).0 == FX_SUCCESS
    ensures var t' := ReadFlow(cfg, w).1.trace;
      var len := Scripted(w.lengths, w.readsAnswered);
      && |t'| > 0 && t'[|t'| - 1] == EmitContent(EmittedLength(cfg.readBufferSize, len))
      && EmittedLength(cfg.readBufferSize, len) <= cfg.readBufferSize + ONE_BYTE
  {
    var w2 := w.(answered := w.answered + 2, trace := w.trace + [MediaVerify, FileOpen(cfg.fileName, OpenForRead)]);
    ReadOpened(cfg, w);
    ReadHeldOutcome(cfg, w2);
    ReadHeldExpectedMeans(w.replies, w.answered + 2);
    assert FirstFailure(ReadView(w.replies, w.answered + 2), w.answered + 2, w.answered + 5) == w.answered + 5;
  }

  /** Once the file is open, a seek that succeeds and a read that succeeds or ends the file lead to the wait. */
  lemma ReadHeldTraceWaits(cfg: Config, r: seq<Status>, c: nat, len: nat)
    requires Scripted(r, c) == FX_SUCCESS && ReadOk(Scripted(r, c + 1))
    ensures var h := ReadHeldTrace(cfg, r, c, len);
      |h| > 3 && h[2] == EventWait
  {
    var v := ReadView(r, c);
    assert Scripted(v, c) == FX_SUCCESS && Scripted(v, c + 1) == FX_SUCCESS;
  }

  /** A read that reports the end of the file is not an error: file_read goes on to the wait. */
  lemma ReadEndOfFileContinues(cfg: Config, w: World)
    requires At(w, 0) == FX_SUCCESS && At(w, 1) == FX_SUCCESS && At(w, 2) == FX_SUCCESS && At(w, 3) == FX_END_OF_FILE
    ensures var t, t' := w.trace, ReadFlow(cfg, w).1.trace;
      |t| + 4 < |t'| && t'[|t| + 4] == EventWait
  {
    var t0 := w.trace + [MediaVerify, FileOpen(cfg.fileName, OpenForRead)];
    var w2 := w.(answered := w.answered + 2, trace := t0);
    var len := Scripted(w.lengths, w.readsAnswered);
    var h := ReadHeldTrace(cfg, w.replies, w.answered + 2, len);
    ReadOpened(cfg, w);
    ReadHeldOutcome(cfg, w2);
    ReadHeldTraceWaits(cfg, w.replies, w.answered + 2, len);
    assert ReadFlow(cfg, w).1.trace == t0 + h;
    assert (t0 + h)[|t0| + 2] == h[2];
  }
}
