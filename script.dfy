/**
 * The scripted environment as a value: the statuses the services will answer in turn,
 * the lengths fx_file_read will report in turn, the clock, and the calls made so far.
 */
module Script {
  import opened FileXApi
  import opened Trace

  /** Answer j of a script; past its end every answer is 0 (FX_SUCCESS, or a length of 0). */
  function Scripted(r: seq<nat>, j: nat): nat
  {
    if j < |r| then r[j] else 0
  }

  /**
   * The scripts and their cursors: answers replies[answered..] and lengths[readsAnswered..]
   * are still to come; trace lists the calls made so far.
   */
  datatype World = World(
    replies: seq<Status>, answered: nat,
    lengths: seq<nat>, readsAnswered: nat,
    now: DateTime, trace: seq<Call>)

  /** The status the k-th service call from now will answer. */
  function At(w: World, k: nat): Status
  {
    Scripted(w.replies, w.answered + k)
  }

  /** A service call: it answers the next scripted status and is recorded. */
  function Ask(w: World, c: Call): (Status, World)
  {
    (Scripted(w.replies, w.answered), w.(answered := w.answered + 1, trace := w.trace + [c]))
  }

  /** fx_file_read: it answers the next scripted status and the next scripted length. */
  function AskRead(w: World, c: Call): (Status, nat, World)
  {
    (Scripted(w.replies, w.answered), Scripted(w.lengths, w.readsAnswered),
     w.(answered := w.answered + 1, readsAnswered := w.readsAnswered + 1, trace := w.trace + [c]))
  }

  /** An output event that answers nothing. */
  function Tell(w: World, c: Call): World
  {
    w.(trace := w.trace + [c])
  }

  /**
   * The first position in [lo, hi) whose scripted status is not FX_SUCCESS, or hi when
   * there is none.
   */
  function FirstFailure(r: seq<Status>, lo: nat, hi: nat): (p: nat)
    requires lo <= hi
    ensures lo <= p <= hi
    ensures forall j | lo <= j < p :: Scripted(r, j) == FX_SUCCESS
    ensures p < hi ==> Scripted(r, p) != FX_SUCCESS
    decreases hi - lo
  {
    if lo == hi then hi
    else if Scripted(r, lo) != FX_SUCCESS then lo
    else FirstFailure(r, lo + 1, hi)
  }

  /** The three properties of FirstFailure determine it, so any position that has them is it. */
  lemma FirstFailureUnique(r: seq<Status>, lo: nat, hi: nat, p: nat)
    requires lo <= p <= hi
    requires forall j | lo <= j < p :: Scripted(r, j) == FX_SUCCESS
    requires p < hi ==> Scripted(r, p) != FX_SUCCESS
    ensures FirstFailure(r, lo, hi) == p
  {
  }
}
