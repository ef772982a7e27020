/**
 * What file_delete promises: with the gate passed it deletes the file and flushes the
 * media, stops at the first failure and returns it, and treats a missing file as success.
 */
module DeleteOutcome {
  import opened FileXApi
  import opened Trace
  import opened Script
  import opened Workflows
  import opened CreateOutcome

  /** The service calls of file_delete after the gate, in order. */
  function DeleteSteps(cfg: Config): seq<Call>
  {
    [FileDelete(cfg.fileName), MediaFlush]
  }

  /** The calls of file_delete with the gate answered at a. */
  function DeleteTrace(cfg: Config, r: seq<Status>, a: nat): seq<Call>
  {
    if Scripted(r, a) != FX_SUCCESS then [MediaVerify]
    else [MediaVerify] + DeleteSteps(cfg)[..StepsMade(r, a + 1, 2)]
  }

  /**
   * The status of file_delete with the gate answered at a: a closed gate and a missing file
   * are not errors; otherwise the first failed step is returned.
   */
  function DeleteExpected(r: seq<Status>, a: nat): Status
  {
    var p := FirstFailure(r, a + 1, a + 3);
    if Scripted(r, a) != FX_SUCCESS then FX_SUCCESS
    else if Scripted(r, a + 1) == FX_NOT_FOUND then FX_SUCCESS
    else if p < a + 3 then Scripted(r, p)
    else FX_SUCCESS
  }

  /**
   * file_delete fails exactly when the gate passes and a step fails, the first failed step
   * not being the delete reporting a missing file.
   */
  lemma DeleteExpectedMeans(r: seq<Status>, a: nat)
    ensures DeleteExpected(r, a) != FX_SUCCESS <==>
      && Scripted(r, a) == FX_SUCCESS
      && Scripted(r, a + 1) != FX_NOT_FOUND
      && FirstFailure(r, a + 1, a + 3) < a + 3
  {
  }

  /** A missing file makes file_delete stop after the delete, with no flush. */
  lemma DeleteMissing(cfg: Config, r: seq<Status>, a: nat)
    requires Scripted(r, a) == FX_SUCCESS && Scripted(r, a + 1) == FX_NOT_FOUND
    ensures DeleteTrace(cfg, r, a) == [MediaVerify, FileDelete(cfg.fileName)]
    ensures DeleteExpected(r, a) == FX_SUCCESS
  {
    assert FirstFailure(r, a + 1, a + 3) == a + 1;
  }

  /** file_delete makes exactly the calls DeleteTrace lists and returns DeleteExpected. */
  lemma DeleteOutcome(cfg: Config, w: World)
    ensures var u := DeleteTrace(cfg, w.replies, w.answered);
      DeleteFlow(cfg, w) == (DeleteExpected(w.replies, w.answered),
        w.(answered := w.answered + |u|, trace := w.trace + u))
  {
    var r, a, t := w.replies, w.answered, w.trace;
    var steps := DeleteSteps(cfg);
    if Scripted(r, a) == FX_SUCCESS {
      if Scripted(r, a + 1) != FX_SUCCESS {
        assert FirstFailure(r, a + 1, a + 3) == a + 1;
        assert t + [MediaVerify] + [steps[0]] == t + ([MediaVerify] + steps[..1]);
      } else {
        assert FirstFailure(r, a + 1, a + 3) == FirstFailure(r, a + 2, a + 3);
        assert t + [MediaVerify] + [steps[0]] + [steps[1]] == t + ([MediaVerify] + steps[..2]);
      }
    }
  }

  /** file_delete never acts on a file handle. */
  lemma DeleteUsesNoHandle(cfg: Config, r: seq<Status>, a: nat)
    ensures forall j | 0 <= j < |DeleteTrace(cfg, r, a)| :: !DeleteTrace(cfg, r, a)[j].OnHandle()
  {
  }
}
