/**
 * What file_write does, stated over script positions. Started with the cursor at a, the
 * workflow asks the gate at a, the open at a + 1 and the truncate at a + 2; iteration j of
 * the write loop writes at a + 3 + 2j and waits at a + 4 + 2j; with b = a + 3 + 2 * WRITE_TIMES
 * the time, date and stamp steps ask at b, b + 1, b + 2; the final close, flush and entry
 * query at b + 3, b + 4, b + 5. A step that fails while the file is open is followed at once
 * by the close of its clean-up.
 */
module WriteProperties {
  import opened FileXApi
  import opened Trace
  import opened Script
  import opened WriteBuffer
  import opened Workflows

  /** The number of indices in [lo, hi) at which the progress marker is printed. */
  function Marks(lo: nat, hi: nat, period: nat): nat
    requires period > 0
    decreases hi - lo
  {
    if lo >= hi then 0
    else (if lo % period == RESET_VALUE then 1 else 0) + Marks(lo + 1, hi, period)
  }

  lemma {:induction false} MarksSnoc(lo: nat, hi: nat, period: nat)
    requires period > 0 && lo <= hi
    ensures Marks(lo, hi + 1, period) == Marks(lo, hi, period) + (if hi % period == RESET_VALUE then 1 else 0)
    decreases hi - lo
  {
    if lo < hi {
      MarksSnoc(lo + 1, hi, period);
    }
  }

  /** x / d for x written as q * d + m with 0 <= m < d. */
  lemma DivUnique(x: nat, d: nat, q: nat, m: nat)
    requires d > 0 && m < d && x == q * d + m
    ensures x / d == q && x % d == m
  {
    var q', m' := x / d, x % d;
    assert x == q' * d + m';
    if q' < q {
      MulLeft(q' + 1, q, d);
      assert false;
    } else if q' > q {
      MulLeft(q + 1, q', d);
      assert false;
    }
  }

  /** Adding one to n adds one marker exactly when n is a multiple of the period. */
  lemma CeilStep(n: nat, period: nat)
    requires period > 0
    ensures (n + 1 + period - 1) / period == (n + period - 1) / period + (if n % period == 0 then 1 else 0)
  {
    var q, m := n / period, n % period;
    assert n == q * period + m;
    if m == 0 {
      DivUnique(n + period - 1, period, q, period - 1);
      DivUnique(n + period, period, q + 1, 0);
    } else {
      DivUnique(n + period - 1, period, q + 1, m - 1);
      DivUnique(n + period, period, q + 1, m);
    }
  }

  /**
   * Over n iterations the progress marker is printed ceil(n / WRITE_ONE_PERCENT) times:
   * once at every multiple of the period, 0 included.
   */
  lemma {:induction false} MarksClosedForm(n: nat, period: nat)
    requires period > 0
    ensures Marks(0, n, period) == (n + period - 1) / period
  {
    if n > 0 {
      MarksClosedForm(n - 1, period);
      MarksSnoc(0, n - 1, period);
      CeilStep(n - 1, period);
    }
  }

  /** Splits the first failure of [lo, hi) at mid. */
  lemma FirstFailureSplit(r: seq<Status>, lo: nat, mid: nat, hi: nat)
    requires lo <= mid <= hi
    ensures FirstFailure(r, lo, hi) ==
      if FirstFailure(r, lo, mid) < mid then FirstFailure(r, lo, mid) else FirstFailure(r, mid, hi)
  {
    var p := FirstFailure(r, lo, mid);
    if p < mid {
      FirstFailureUnique(r, lo, hi, p);
    } else {
      FirstFailureUnique(r, lo, hi, FirstFailure(r, mid, hi));
    }
  }

  /** Every write call of t writes size bytes of data and is followed by a wait or a close. */
  predicate WritesPaired(t: seq<Call>, size: nat, data: seq<char>)
  {
    forall k | 0 <= k < |t| && t[k].FileWrite? ::
      t[k] == FileWrite(size, data) && k + 1 < |t| && (t[k + 1].EventWait? || t[k + 1].FileClose?)
  }

  lemma PairedAppend(u: seq<Call>, v: seq<Call>, size: nat, data: seq<char>)
    requires WritesPaired(u, size, data) && WritesPaired(v, size, data)
    ensures WritesPaired(u + v, size, data)
  {
    forall k | 0 <= k < |u + v| && (u + v)[k].FileWrite?
      ensures (u + v)[k] == FileWrite(size, data) && k + 1 < |u + v|
      ensures (u + v)[k + 1].EventWait? || (u + v)[k + 1].FileClose?
    {
      if k < |u| {
        assert (u + v)[k] == u[k] && (u + v)[k + 1] == u[k + 1];
      } else {
        assert (u + v)[k] == v[k - |u|] && (u + v)[k + 1] == v[k + 1 - |u|];
      }
    }
  }

  /** The calls of a completed iteration i of the loop: the write, the wait and the marker when due. */
  function IterationCalls(cfg: Config, data: seq<char>, i: nat): seq<Call>
    requires cfg.Valid()
  {
    [FileWrite(cfg.writeBufferSize, data), EventWait]
      + (if i % cfg.writeOnePercent == RESET_VALUE then [ProgressDot] else [])
  }

  /** The world after a completed iteration i. */
  function IterationWorld(cfg: Config, data: seq<char>, i: nat, w: World): World
    requires cfg.Valid()
  {
    w.(answered := w.answered + 2, trace := w.trace + IterationCalls(cfg, data, i))
  }

  lemma IterationUnfolds(cfg: Config, data: seq<char>, i: nat, w: World)
    requires cfg.Valid() && i < cfg.writeTimes && At(w, 0) == FX_SUCCESS && At(w, 1) == TX_SUCCESS
    ensures WriteLoop(cfg, data, i, w) == WriteLoop(cfg, data, i + 1, IterationWorld(cfg, data, i, w))
  {
    var c := FileWrite(cfg.writeBufferSize, data);
    var w2 := Ask(Ask(w, c).1, EventWait).1;
    var w3 := if i % cfg.writeOnePercent == RESET_VALUE then Tell(w2, ProgressDot) else w2;
    assert WriteLoop(cfg, data, i, w) == WriteLoop(cfg, data, i + 1, w3);
    assert w2.trace == w.trace + [c, EventWait];
    assert w3.trace == w.trace + IterationCalls(cfg, data, i);
    assert w3 == IterationWorld(cfg, data, i, w);
  }

  /**
   * The calls iterations i .. WRITE_TIMES - 1 of the loop make when the script answers from
   * position a on: completed iterations, then, at a failed write or wait, that call and the
   * close of the clean-up.
   */
  function LoopTrace(cfg: Config, data: seq<char>, i: nat, r: seq<Status>, a: nat): seq<Call>
    requires cfg.Valid()
    decreases cfg.writeTimes - i
  {
    if i >= cfg.writeTimes then []
    else if Scripted(r, a) != FX_SUCCESS then [FileWrite(cfg.writeBufferSize, data), FileClose]
    else if Scripted(r, a + 1) != TX_SUCCESS then [FileWrite(cfg.writeBufferSize, data), EventWait, FileClose]
    else IterationCalls(cfg, data, i) + LoopTrace(cfg, data, i + 1, r, a + 2)
  }

  lemma LoopTraceIterates(cfg: Config, data: seq<char>, i: nat, w: World)
    requires cfg.Valid() && i < cfg.writeTimes && At(w, 0) == FX_SUCCESS && At(w, 1) == TX_SUCCESS
    requires var w3 := IterationWorld(cfg, data, i, w);
      WriteLoop(cfg, data, i + 1, w3).1.trace == w3.trace + LoopTrace(cfg, data, i + 1, w3.replies, w3.answered)
    ensures WriteLoop(cfg, data, i, w).1.trace == w.trace + LoopTrace(cfg, data, i, w.replies, w.answered)
  {
    IterationUnfolds(cfg, data, i, w);
    var rest := LoopTrace(cfg, data, i + 1, w.replies, w.answered + 2);
    assert w.trace + IterationCalls(cfg, data, i) + rest == w.trace + (IterationCalls(cfg, data, i) + rest);
  }

  /** The calls the loop adds to the trace are those LoopTrace lists. */
  lemma {:induction false} WriteLoopTrace(cfg: Config, data: seq<char>, i: nat, w: World)
    requires cfg.Valid() && i <= cfg.writeTimes
    ensures WriteLoop(cfg, data, i, w).1.trace == w.trace + LoopTrace(cfg, data, i, w.replies, w.answered)
    decreases cfg.writeTimes - i
  {
    var c := FileWrite(cfg.writeBufferSize, data);
    if i == cfg.writeTimes {
      assert w.trace + [] == w.trace;
    } else if At(w, 0) != FX_SUCCESS {
      assert w.trace + [c] + [FileClose] == w.trace + [c, FileClose];
    } else if At(w, 1) != TX_SUCCESS {
      assert w.trace + [c] + [EventWait] + [FileClose] == w.trace + [c, EventWait, FileClose];
    } else {
      WriteLoopTrace(cfg, data, i + 1, IterationWorld(cfg, data, i, w));
      LoopTraceIterates(cfg, data, i, w);
    }
  }

  /** The loop changes nothing of the world but the cursor and the trace. */
  lemma {:induction false} WriteLoopFrame(cfg: Config, data: seq<char>, i: nat, w: World)
    requires cfg.Valid() && i <= cfg.writeTimes
    ensures var w' := WriteLoop(cfg, data, i, w).1;
      w'.replies == w.replies && w'.lengths == w.lengths && w'.readsAnswered == w.readsAnswered && w'.now == w.now
    decreases cfg.writeTimes - i
  {
    if i < cfg.writeTimes && At(w, 0) == FX_SUCCESS && At(w, 1) == TX_SUCCESS {
      IterationUnfolds(cfg, data, i, w);
      WriteLoopFrame(cfg, data, i + 1, IterationWorld(cfg, data, i, w));
    }
  }

  /**
   * A run over the answers [a, end) of r stops at their first failing position p: the
   * status is then the clean-up close's at p + 1 if that close fails and the failed step's
   * otherwise, and the cursor has moved past the close; with no failure the status is
   * FX_SUCCESS and every answer is used.
   */
  predicate StopsAtFirstFailure(r: seq<Status>, a: nat, end: nat, s: Status, answered: nat)
    requires a <= end
  {
    var p := FirstFailure(r, a, end);
    && s == (if p < end then AfterCleanup(Scripted(r, p), Scripted(r, p + 1)) else FX_SUCCESS)
    && answered == (if p < end then p + 2 else end)
  }

  /** Two successful answers in front of a run leave where it stops unchanged. */
  lemma StopsAfterTwoSuccesses(r: seq<Status>, a: nat, end: nat, s: Status, answered: nat)
    requires a + 2 <= end && Scripted(r, a) == FX_SUCCESS && Scripted(r, a + 1) == FX_SUCCESS
    requires StopsAtFirstFailure(r, a + 2, end, s, answered)
    ensures StopsAtFirstFailure(r, a, end, s, answered)
  {
    assert FirstFailure(r, a, end) == FirstFailure(r, a + 1, end) == FirstFailure(r, a + 2, end);
  }

  /** Where the loop from iteration i on world w stops, as StopsAtFirstFailure states it. */
  predicate LoopStops(cfg: Config, data: seq<char>, i: nat, w: World)
    requires cfg.Valid() && i <= cfg.writeTimes
  {
    var res := WriteLoop(cfg, data, i, w);
    StopsAtFirstFailure(w.replies, w.answered, w.answered + 2 * (cfg.writeTimes - i), res.0, res.1.answered)
  }

  lemma LoopWriteFails(cfg: Config, data: seq<char>, i: nat, w: World)
    requires cfg.Valid() && i < cfg.writeTimes && At(w, 0) != FX_SUCCESS
    ensures LoopStops(cfg, data, i, w)
  {
    var w1 := Ask(w, FileWrite(cfg.writeBufferSize, data)).1;
    assert WriteLoop(cfg, data, i, w) == CloseAfter(At(w, 0), w1);
    assert FirstFailure(w.replies, w.answered, w.answered + 2 * (cfg.writeTimes - i)) == w.answered;
  }

  lemma LoopWaitFails(cfg: Config, data: seq<char>, i: nat, w: World)
    requires cfg.Valid() && i < cfg.writeTimes && At(w, 0) == FX_SUCCESS && At(w, 1) != TX_SUCCESS
    ensures LoopStops(cfg, data, i, w)
  {
    var r, a, end := w.replies, w.answered, w.answered + 2 * (cfg.writeTimes - i);
    var w1 := Ask(w, FileWrite(cfg.writeBufferSize, data)).1;
    var w2 := Ask(w1, EventWait).1;
    assert WriteLoop(cfg, data, i, w) == CloseAfter(At(w, 1), w2);
    assert FirstFailure(r, a, end) == FirstFailure(r, a + 1, end) == a + 1;
  }

  lemma LoopIterates(cfg: Config, data: seq<char>, i: nat, w: World)
    requires cfg.Valid() && i < cfg.writeTimes && At(w, 0) == FX_SUCCESS && At(w, 1) == TX_SUCCESS
    requires LoopStops(cfg, data, i + 1, IterationWorld(cfg, data, i, w))
    ensures LoopStops(cfg, data, i, w)
  {
    var w3 := IterationWorld(cfg, data, i, w);
    IterationUnfolds(cfg, data, i, w);
    assert w3.replies == w.replies && w3.answered == w.answered + 2;
    var res := WriteLoop(cfg, data, i + 1, w3);
    StopsAfterTwoSuccesses(w.replies, w.answered, w.answered + 2 * (cfg.writeTimes - i), res.0, res.1.answered);
  }

  /**
   * Iterations i .. WRITE_TIMES - 1 of the loop, started at cursor a, stop at the first
   * failing one of their 2 * (WRITE_TIMES - i) answers.
   */
  lemma {:induction false} WriteLoopStatus(cfg: Config, data: seq<char>, i: nat, w: World)
    requires cfg.Valid() && i <= cfg.writeTimes
    ensures LoopStops(cfg, data, i, w)
    decreases cfg.writeTimes - i
  {
    if i == cfg.writeTimes {
    } else if At(w, 0) != FX_SUCCESS {
      LoopWriteFails(cfg, data, i, w);
    } else if At(w, 1) != TX_SUCCESS {
      LoopWaitFails(cfg, data, i, w);
    } else {
      WriteLoopStatus(cfg, data, i + 1, IterationWorld(cfg, data, i, w));
      LoopIterates(cfg, data, i, w);
    }
  }

  /**
   * The calls a run over the answers [a, end) of r adds, with the loop at iteration i:
   * every iteration before the first failing position p completed its write, its wait and
   * its progress marker; the failing iteration made its write (and its wait if the wait
   * failed) and one close; a run with no failure completed (end - a) / 2 iterations.
   */
  predicate Tally(r: seq<Status>, a: nat, end: nat, i: nat, period: nat, writes: int, waits: int, dots: int, closes: int)
    requires a <= end && period > 0
  {
    var p := FirstFailure(r, a, end);
    var done := if p < end then (p - a) / 2 else (end - a) / 2;
    && writes == (if p < end then done + 1 else done)
    && waits == (if p < end then (p - a + 1) / 2 else done)
    && dots == Marks(i, i + done, period)
    && closes == (if p < end then 1 else 0)
  }

  lemma TallyAfterTwoSuccesses(r: seq<Status>, a: nat, end: nat, i: nat, period: nat, writes: int, waits: int, dots: int, closes: int)
    requires a + 2 <= end && period > 0 && Scripted(r, a) == FX_SUCCESS && Scripted(r, a + 1) == FX_SUCCESS
    requires Tally(r, a + 2, end, i + 1, period, writes, waits, dots, closes)
    ensures Tally(r, a, end, i, period, writes + 1, waits + 1, dots + (if i % period == RESET_VALUE then 1 else 0), closes)
  {
    assert FirstFailure(r, a, end) == FirstFailure(r, a + 1, end) == FirstFailure(r, a + 2, end);
  }

  /** Whether the loop, from iteration i at answer a, stops at a failed write or wait. */
  predicate LoopFails(cfg: Config, i: nat, r: seq<Status>, a: nat)
    requires i <= cfg.writeTimes
  {
    FirstFailure(r, a, a + 2 * (cfg.writeTimes - i)) < a + 2 * (cfg.writeTimes - i)
  }

  lemma IterationCallsCount(cfg: Config, data: seq<char>, i: nat)
    requires cfg.Valid()
    ensures var u := IterationCalls(cfg, data, i);
      && Count(u, Writes) == 1 && Count(u, Waits) == 1 && Count(u, Closes) == 0
      && Count(u, Dots) == (if i % cfg.writeOnePercent == RESET_VALUE then 1 else 0)
  {
    var c := FileWrite(cfg.writeBufferSize, data);
    if i % cfg.writeOnePercent == RESET_VALUE {
      assert IterationCalls(cfg, data, i) == [c, EventWait, ProgressDot];
      CountTriple(c, EventWait, ProgressDot, Writes);
      CountTriple(c, EventWait, ProgressDot, Waits);
      CountTriple(c, EventWait, ProgressDot, Dots);
      CountTriple(c, EventWait, ProgressDot, Closes);
    } else {
      assert IterationCalls(cfg, data, i) == [c, EventWait];
      CountPair(c, EventWait, Writes);
      CountPair(c, EventWait, Waits);
      CountPair(c, EventWait, Dots);
      CountPair(c, EventWait, Closes);
    }
  }

  lemma IterationCallsHeld(cfg: Config, data: seq<char>, i: nat)
    requires cfg.Valid()
    ensures Run(Held, IterationCalls(cfg, data, i)) == Held
    ensures WritesPaired(IterationCalls(cfg, data, i), cfg.writeBufferSize, data)
  {
    var c := FileWrite(cfg.writeBufferSize, data);
    if i % cfg.writeOnePercent == RESET_VALUE {
      assert IterationCalls(cfg, data, i) == [c, EventWait, ProgressDot];
      RunTriple(Held, c, EventWait, ProgressDot);
    } else {
      assert IterationCalls(cfg, data, i) == [c, EventWait];
      RunPair(Held, c, EventWait);
    }
  }

  /** Tally applied to the calls u of the loop from iteration i at answer a. */
  predicate LoopTally(cfg: Config, i: nat, r: seq<Status>, a: nat, u: seq<Call>)
    requires cfg.Valid() && i <= cfg.writeTimes
  {
    Tally(r, a, a + 2 * (cfg.writeTimes - i), i, cfg.writeOnePercent,
      Count(u, Writes), Count(u, Waits), Count(u, Dots), Count(u, Closes))
  }

  lemma LoopTallyWriteFails(cfg: Config, data: seq<char>, i: nat, r: seq<Status>, a: nat)
    requires cfg.Valid() && i < cfg.writeTimes && Scripted(r, a) != FX_SUCCESS
    ensures LoopTally(cfg, i, r, a, [FileWrite(cfg.writeBufferSize, data), FileClose])
  {
    assert FirstFailure(r, a, a + 2 * (cfg.writeTimes - i)) == a;
    CountPair(FileWrite(cfg.writeBufferSize, data), FileClose, Writes);
    CountPair(FileWrite(cfg.writeBufferSize, data), FileClose, Waits);
    CountPair(FileWrite(cfg.writeBufferSize, data), FileClose, Dots);
    CountPair(FileWrite(cfg.writeBufferSize, data), FileClose, Closes);
  }

  /** A failed wait right after a write: one write, one wait, no marker, one close. */
  lemma TallyWaitFails(r: seq<Status>, a: nat, end: nat, i: nat, period: nat)
    requires a + 2 <= end && period > 0 && Scripted(r, a) == FX_SUCCESS && Scripted(r, a + 1) != TX_SUCCESS
    ensures Tally(r, a, end, i, period, 1, 1, 0, 1)
  {
    assert FirstFailure(r, a, end) == FirstFailure(r, a + 1, end) == a + 1;
  }

  lemma LoopTallyWaitFails(cfg: Config, data: seq<char>, i: nat, r: seq<Status>, a: nat)
    requires cfg.Valid() && i < cfg.writeTimes && Scripted(r, a) == FX_SUCCESS && Scripted(r, a + 1) != TX_SUCCESS
    ensures LoopTally(cfg, i, r, a, [FileWrite(cfg.writeBufferSize, data), EventWait, FileClose])
  {
    var x := FileWrite(cfg.writeBufferSize, data);
    CountTriple(x, EventWait, FileClose, Writes);
    CountTriple(x, EventWait, FileClose, Waits);
    CountTriple(x, EventWait, FileClose, Dots);
    CountTriple(x, EventWait, FileClose, Closes);
    TallyWaitFails(r, a, a + 2 * (cfg.writeTimes - i), i, cfg.writeOnePercent);
  }

  lemma LoopTallyIterates(cfg: Config, data: seq<char>, i: nat, r: seq<Status>, a: nat, rest: seq<Call>)
    requires cfg.Valid() && i < cfg.writeTimes && Scripted(r, a) == FX_SUCCESS && Scripted(r, a + 1) == TX_SUCCESS
    requires LoopTally(cfg, i + 1, r, a + 2, rest)
    ensures LoopTally(cfg, i, r, a, IterationCalls(cfg, data, i) + rest)
  {
    var head := IterationCalls(cfg, data, i);
    IterationCallsCount(cfg, data, i);
    CountAppend(head, rest, Writes);
    CountAppend(head, rest, Waits);
    CountAppend(head, rest, Dots);
    CountAppend(head, rest, Closes);
    TallyAfterTwoSuccesses(r, a, a + 2 * (cfg.writeTimes - i), i, cfg.writeOnePercent,
      Count(rest, Writes), Count(rest, Waits), Count(rest, Dots), Count(rest, Closes));
  }

  /**
   * The calls of the loop from iteration i, with answers from a on: WRITE_TIMES - i writes,
   * as many waits and the due markers when it completes; on a failure in iteration i + k,
   * k + 1 writes, k waits (one more if the wait failed), the markers of the k completed
   * iterations, and one close.
   */
  lemma {:induction false} LoopTraceCounts(cfg: Config, data: seq<char>, i: nat, r: seq<Status>, a: nat)
    requires cfg.Valid() && i <= cfg.writeTimes
    ensures LoopTally(cfg, i, r, a, LoopTrace(cfg, data, i, r, a))
    decreases cfg.writeTimes - i
  {
    if i == cfg.writeTimes {
    } else if Scripted(r, a) != FX_SUCCESS {
      LoopTallyWriteFails(cfg, data, i, r, a);
    } else if Scripted(r, a + 1) != TX_SUCCESS {
      LoopTallyWaitFails(cfg, data, i, r, a);
    } else {
      LoopTraceCounts(cfg, data, i + 1, r, a + 2);
      LoopTallyIterates(cfg, data, i, r, a, LoopTrace(cfg, data, i + 1, r, a + 2));
    }
  }

  /**
   * The loop keeps the handle held when it completes and has released it, by exactly the
   * clean-up close, when it fails; it writes nothing but size bytes of data, each write
   * followed by a wait or a close.
   */
  lemma {:induction false} LoopTraceHandle(cfg: Config, data: seq<char>, i: nat, r: seq<Status>, a: nat)
    requires cfg.Valid() && i <= cfg.writeTimes
    ensures var u := LoopTrace(cfg, data, i, r, a);
      && Run(Held, u) == (if LoopFails(cfg, i, r, a) then Released else Held)
      && WritesPaired(u, cfg.writeBufferSize, data)
    decreases cfg.writeTimes - i
  {
    var end := a + 2 * (cfg.writeTimes - i);
    var c := FileWrite(cfg.writeBufferSize, data);
    if i == cfg.writeTimes {
    } else if Scripted(r, a) != FX_SUCCESS {
      assert FirstFailure(r, a, end) == a;
      RunPair(Held, c, FileClose);
    } else if Scripted(r, a + 1) != TX_SUCCESS {
      assert FirstFailure(r, a, end) == FirstFailure(r, a + 1, end) == a + 1;
      RunTriple(Held, c, EventWait, FileClose);
    } else {
      var head, rest := IterationCalls(cfg, data, i), LoopTrace(cfg, data, i + 1, r, a + 2);
      LoopTraceHandle(cfg, data, i + 1, r, a + 2);
      IterationCallsHeld(cfg, data, i);
      assert FirstFailure(r, a, end) == FirstFailure(r, a + 1, end) == FirstFailure(r, a + 2, end);
      RunAppend(Held, head, rest);
      PairedAppend(head, rest, cfg.writeBufferSize, data);
    }
  }

  /** A run that stops at its first failure succeeds exactly when nothing in it failed. */
  lemma StopsStatus(r: seq<Status>, a: nat, end: nat, s: Status, answered: nat)
    requires a <= end && StopsAtFirstFailure(r, a, end, s, answered)
    ensures s == FX_SUCCESS <==> FirstFailure(r, a, end) == end
    ensures s == FX_SUCCESS ==> answered == end
  {
  }

  /** The calls of file_write after the loop, with the answers from b on and the clock at now. */
  function FinishTrace(cfg: Config, r: seq<Status>, b: nat, now: DateTime): seq<Call>
  {
    var stamp := FileDateTimeSet(cfg.fileName, now);
    if Scripted(r, b) != FX_SUCCESS then [SystemTimeGet, FileClose]
    else if Scripted(r, b + 1) != FX_SUCCESS then [SystemTimeGet, SystemDateGet, FileClose]
    else if Scripted(r, b + 2) != FX_SUCCESS then [SystemTimeGet, SystemDateGet, stamp, FileClose]
    else
      [SystemTimeGet, SystemDateGet, stamp, FileClose]
      + (if Scripted(r, b + 3) != FX_SUCCESS then []
         else [MediaFlush] + (if Scripted(r, b + 4) != FX_SUCCESS then [] else [DirectoryInformationGet(cfg.fileName)]))
  }

  /** The calls of file_write from the truncate on, with the truncate answered at position c. */
  function HeldTrace(cfg: Config, r: seq<Status>, c: nat, now: DateTime): seq<Call>
    requires cfg.Valid()
  {
    var ft := FileTruncate(cfg.truncateValue);
    var loop := LoopTrace(cfg, FixedBuffer(cfg), 0, r, c + 1);
    if Scripted(r, c) != FX_SUCCESS then [ft, FileClose]
    else if LoopFails(cfg, 0, r, c + 1) then [ft] + loop
    else [ft] + loop + FinishTrace(cfg, r, c + 1 + 2 * cfg.writeTimes, now)
  }

  /**
   * The status of file_write after the loop, with the answers from b on: a failed stamping
   * step is returned after the close unless the close fails too; after the final close the
   * first failed step is returned as it is.
   */
  function FinishStatus(r: seq<Status>, b: nat): Status
  {
    if Scripted(r, b) != FX_SUCCESS then AfterCleanup(Scripted(r, b), Scripted(r, b + 1))
    else if Scripted(r, b + 1) != FX_SUCCESS then AfterCleanup(Scripted(r, b + 1), Scripted(r, b + 2))
    else if Scripted(r, b + 2) != FX_SUCCESS then AfterCleanup(Scripted(r, b + 2), Scripted(r, b + 3))
    else if Scripted(r, b + 3) != FX_SUCCESS then Scripted(r, b + 3)
    else if Scripted(r, b + 4) != FX_SUCCESS then Scripted(r, b + 4)
    else if Scripted(r, b + 5) != FX_SUCCESS then Scripted(r, b + 5)
    else FX_SUCCESS
  }

  lemma WriteFinishTrace(cfg: Config, w: World)
    ensures WriteFinish(cfg, w).1.trace == w.trace + FinishTrace(cfg, w.replies, w.answered, w.now)
    ensures WriteFinish(cfg, w).0 == FinishStatus(w.replies, w.answered)
  {
    var t, r, b := w.trace, w.replies, w.answered;
    var stamp := FileDateTimeSet(cfg.fileName, w.now);
    var name := cfg.fileName;
    if Scripted(r, b) != FX_SUCCESS {
      assert t + [SystemTimeGet] + [FileClose] == t + [SystemTimeGet, FileClose];
    } else if Scripted(r, b + 1) != FX_SUCCESS {
      assert t + [SystemTimeGet] + [SystemDateGet] + [FileClose] == t + [SystemTimeGet, SystemDateGet, FileClose];
    } else if Scripted(r, b + 2) != FX_SUCCESS {
      assert t + [SystemTimeGet] + [SystemDateGet] + [stamp] + [FileClose]
        == t + [SystemTimeGet, SystemDateGet, stamp, FileClose];
    } else {
      var u := t + [SystemTimeGet] + [SystemDateGet] + [stamp] + [FileClose];
      assert u == t + [SystemTimeGet, SystemDateGet, stamp, FileClose];
      assert u + [MediaFlush] == t + ([SystemTimeGet, SystemDateGet, stamp, FileClose] + [MediaFlush]);
      assert u + [MediaFlush] + [DirectoryInformationGet(name)]
        == t + ([SystemTimeGet, SystemDateGet, stamp, FileClose] + ([MediaFlush] + [DirectoryInformationGet(name)]));
    }
  }

  lemma HeldTruncateFails(cfg: Config, w: World)
    requires cfg.Valid() && At(w, 0) != FX_SUCCESS
    ensures WriteHeld(cfg, w).1.trace == w.trace + HeldTrace(cfg, w.replies, w.answered, w.now)
    ensures WriteHeld(cfg, w).0 == AfterCleanup(At(w, 0), At(w, 1))
  {
    var ft := FileTruncate(cfg.truncateValue);
    assert HeldTrace(cfg, w.replies, w.answered, w.now) == [ft, FileClose];
    assert w.trace + [ft] + [FileClose] == w.trace + [ft, FileClose];
  }

  lemma HeldLoopFails(cfg: Config, w: World)
    requires cfg.Valid() && At(w, 0) == FX_SUCCESS && LoopFails(cfg, 0, w.replies, w.answered + 1)
    ensures WriteHeld(cfg, w).1.trace == w.trace + HeldTrace(cfg, w.replies, w.answered, w.now)
    ensures var p := FirstFailure(w.replies, w.answered + 1, w.answered + 1 + 2 * cfg.writeTimes);
      WriteHeld(cfg, w).0 == AfterCleanup(Scripted(w.replies, p), Scripted(w.replies, p + 1))
  {
    var ft := FileTruncate(cfg.truncateValue);
    var w1 := Ask(w, ft).1;
    var data := FixedBuffer(cfg);
    var (looped, w2) := WriteLoop(cfg, data, 0, w1);
    WriteLoopTrace(cfg, data, 0, w1);
    WriteLoopStatus(cfg, data, 0, w1);
    StopsStatus(w.replies, w.answered + 1, w.answered + 1 + 2 * cfg.writeTimes, looped, w2.answered);
    var loop := LoopTrace(cfg, data, 0, w.replies, w.answered + 1);
    assert HeldTrace(cfg, w.replies, w.answered, w.now) == [ft] + loop;
    AppendAssoc(w.trace, [ft], loop);
  }

  lemma HeldFinishes(cfg: Config, w: World)
    requires cfg.Valid() && At(w, 0) == FX_SUCCESS && !LoopFails(cfg, 0, w.replies, w.answered + 1)
    ensures WriteHeld(cfg, w).1.trace == w.trace + HeldTrace(cfg, w.replies, w.answered, w.now)
    ensures WriteHeld(cfg, w).0 == FinishStatus(w.replies, w.answered + 1 + 2 * cfg.writeTimes)
  {
    var ft := FileTruncate(cfg.truncateValue);
    var w1 := Ask(w, ft).1;
    var data := FixedBuffer(cfg);
    var (looped, w2) := WriteLoop(cfg, data, 0, w1);
    WriteLoopTrace(cfg, data, 0, w1);
    WriteLoopStatus(cfg, data, 0, w1);
    WriteLoopFrame(cfg, data, 0, w1);
    StopsStatus(w.replies, w.answered + 1, w.answered + 1 + 2 * cfg.writeTimes, looped, w2.answered);
    WriteFinishTrace(cfg, w2);
    var loop := LoopTrace(cfg, data, 0, w.replies, w.answered + 1);
    var fin := FinishTrace(cfg, w.replies, w.answered + 1 + 2 * cfg.writeTimes, w.now);
    assert HeldTrace(cfg, w.replies, w.answered, w.now) == [ft] + loop + fin;
    AppendAssoc(w.trace + [ft], loop, fin);
    AppendAssoc(w.trace, [ft], loop);
    AppendAssoc(w.trace, [ft] + loop, fin);
  }

  /** The calls file_write adds to the trace once the file is open are those HeldTrace lists. */
  lemma WriteHeldTrace(cfg: Config, w: World)
    requires cfg.Valid()
    ensures WriteHeld(cfg, w).1.trace == w.trace + HeldTrace(cfg, w.replies, w.answered, w.now)
  {
    if At(w, 0) != FX_SUCCESS {
      HeldTruncateFails(cfg, w);
    } else if LoopFails(cfg, 0, w.replies, w.answered + 1) {
      HeldLoopFails(cfg, w);
    } else {
      HeldFinishes(cfg, w);
    }
  }

  lemma WriteOpened(cfg: Config, w: World)
    requires cfg.Valid() && At(w, 0) == FX_SUCCESS && At(w, 1) == FX_SUCCESS
    ensures WriteFlow(cfg, w)
      == WriteHeld(cfg, w.(answered := w.answered + 2, trace := w.trace + [MediaVerify, FileOpen(cfg.fileName, OpenForWrite)]))
  {
    var w1 := Ask(w, MediaVerify).1;
    var w2 := Ask(w1, FileOpen(cfg.fileName, OpenForWrite)).1;
    assert WriteFlow(cfg, w) == WriteOpen(cfg, w1);
    assert WriteOpen(cfg, w1) == WriteHeld(cfg, w2);
    assert w2 == w.(answered := w.answered + 2, trace := w.trace + [MediaVerify, FileOpen(cfg.fileName, OpenForWrite)]);
  }
}
