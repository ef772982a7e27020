/**
 * What file_create promises: with the gate passed it creates the file, flushes the media
 * and queries the new entry, stops at the first failure and returns it, and treats an
 * existing file as success; it never opens a handle.
 */
module CreateOutcome {
  import opened FileXApi
  import opened Trace
  import opened Script
  import opened Workflows

  /** The number of n steps from answer lo on that run: up to and including the first failure. */
  function StepsMade(r: seq<Status>, lo: nat, n: nat): (m: nat)
    ensures m <= n
    ensures m < n ==> 0 < m && Scripted(r, lo + m - 1) != FX_SUCCESS
    ensures forall j | lo <= j && j + 1 < lo + m :: Scripted(r, j) == FX_SUCCESS
  {
    var p := FirstFailure(r, lo, lo + n);
    if p < lo + n then p - lo + 1 else n
  }

  /** The service calls of file_create after the gate, in order. */
  function CreateSteps(cfg: Config): seq<Call>
  {
    [FileCreate(cfg.fileName), MediaFlush, DirectoryInformationGet(cfg.fileName)]
  }

  /** The calls of file_create with the gate answered at a. */
  function CreateTrace(cfg: Config, r: seq<Status>, a: nat): seq<Call>
  {
    if Scripted(r, a) != FX_SUCCESS then [MediaVerify]
    else [MediaVerify] + CreateSteps(cfg)[..StepsMade(r, a + 1, 3)]
  }

  /**
   * The status of file_create with the gate answered at a: a closed gate and an existing
   * file are not errors; otherwise the first failed step is returned.
   */
  function CreateExpected(r: seq<Status>, a: nat): Status
  {
    var p := FirstFailure(r, a + 1, a + 4);
    if Scripted(r, a) != FX_SUCCESS then FX_SUCCESS
    else if Scripted(r, a + 1) == FX_ALREADY_CREATED then FX_SUCCESS
    else if p < a + 4 then Scripted(r, p)
    else FX_SUCCESS
  }

  /**
   * file_create fails exactly when the gate passes and a step fails, the first failed step
   * not being the create reporting an existing file.
   */
  lemma CreateExpectedMeans(r: seq<Status>, a: nat)
    ensures CreateExpected(r, a) != FX_SUCCESS <==>
      && Scripted(r, a) == FX_SUCCESS
      && Scripted(r, a + 1) != FX_ALREADY_CREATED
      && FirstFailure(r, a + 1, a + 4) < a + 4
  {
  }

  /** An existing file makes file_create stop after the create, with no flush and no query. */
  lemma CreateExisting(cfg: Config, r: seq<Status>, a: nat)
    requires Scripted(r, a) == FX_SUCCESS && Scripted(r, a + 1) == FX_ALREADY_CREATED
    ensures CreateTrace(cfg, r, a) == [MediaVerify, FileCreate(cfg.fileName)]
    ensures CreateExpected(r, a) == FX_SUCCESS
  {
    assert FirstFailure(r, a + 1, a + 4) == a + 1;
  }

  /** file_create makes exactly the calls CreateTrace lists and returns CreateExpected. */
  lemma CreateOutcome(cfg: Config, w: World)
    ensures var u := CreateTrace(cfg, w.replies, w.answered);
      CreateFlow(cfg, w) == (CreateExpected(w.replies, w.answered),
        w.(answered := w.answered + |u|, trace := w.trace + u))
  {
    var r, a, t := w.replies, w.answered, w.trace;
    var steps := CreateSteps(cfg);
    if Scripted(r, a) == FX_SUCCESS {
      if Scripted(r, a + 1) != FX_SUCCESS {
        assert FirstFailure(r, a + 1, a + 4) == a + 1;
        assert t + [MediaVerify] + [steps[0]] == t + ([MediaVerify] + steps[..1]);
      } else if Scripted(r, a + 2) != FX_SUCCESS {
        assert FirstFailure(r, a + 1, a + 4) == a + 2;
        assert t + [MediaVerify] + [steps[0]] + [steps[1]] == t + ([MediaVerify] + steps[..2]);
      } else {
        assert FirstFailure(r, a + 1, a + 4) == FirstFailure(r, a + 3, a + 4);
        assert t + [MediaVerify] + [steps[0]] + [steps[1]] + [steps[2]] == t + ([MediaVerify] + steps[..3]);
      }
    }
  }

  /** file_create never acts on a file handle, so it cannot leave one open. */
  lemma CreateUsesNoHandle(cfg: Config, r: seq<Status>, a: nat)
    ensures forall j | 0 <= j < |CreateTrace(cfg, r, a)| :: !CreateTrace(cfg, r, a)[j].OnHandle()
  {
  }
}
