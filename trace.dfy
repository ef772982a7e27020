/**
 * The record of calls the workflows make into the environment, counters over it, and
 * the protocol an open FX_FILE handle must follow.
 */
module Trace {
  import opened FileXApi

  datatype CallKind =
    | Verifies | Creates | Opens | Truncates | Writes | Waits | ReadsTime | ReadsDate
    | Stamps | Closes | Flushes | Queries | Seeks | Reads | Deletes | Dots | Emits

  /** One call into FileX, ThreadX, the media gate or the output sink, with its arguments. */
  datatype Call =
    | MediaVerify
    | FileCreate(name: string)
    | FileOpen(name: string, mode: OpenMode)
    | FileTruncate(size: nat)
    | FileWrite(size: nat, data: seq<char>)
    | EventWait
    | SystemTimeGet
    | SystemDateGet
    | FileDateTimeSet(name: string, stamp: DateTime)
    | FileClose
    | MediaFlush
    | DirectoryInformationGet(name: string)
    | FileSeek(offset: nat)
    | FileRead(size: nat)
    | FileDelete(name: string)
    | ProgressDot
    | EmitContent(length: nat)
  {
    function Kind(): CallKind {
      match this
      case MediaVerify => Verifies
      case FileCreate(_) => Creates
      case FileOpen(_, _) => Opens
      case FileTruncate(_) => Truncates
      case FileWrite(_, _) => Writes
      case EventWait => Waits
      case SystemTimeGet => ReadsTime
      case SystemDateGet => ReadsDate
      case FileDateTimeSet(_, _) => Stamps
      case FileClose => Closes
      case MediaFlush => Flushes
      case DirectoryInformationGet(_) => Queries
      case FileSeek(_) => Seeks
      case FileRead(_) => Reads
      case FileDelete(_) => Deletes
      case ProgressDot => Dots
      case EmitContent(_) => Emits
    }

    /** The calls a workflow may make while it holds an open FX_FILE (other than closing it). */
    predicate WhileHeld() {
      || FileTruncate? || FileWrite? || EventWait? || SystemTimeGet? || SystemDateGet?
      || FileDateTimeSet? || FileSeek? || FileRead? || ProgressDot?
    }

    /** The calls a workflow may make once it has closed its FX_FILE. */
    predicate AfterRelease() {
      MediaFlush? || DirectoryInformationGet? || EmitContent?
    }

    /** The calls that act on the FX_FILE itself. */
    predicate OnHandle() {
      FileTruncate? || FileWrite? || FileSeek? || FileRead? || FileClose?
    }
  }

  /** Number of calls of kind k in t. */
  function Count(t: seq<Call>, k: CallKind): nat
  {
    if t == [] then 0
    else Count(t[..|t| - 1], k) + (if t[|t| - 1].Kind() == k then 1 else 0)
  }

  lemma {:induction false} CountAppend(a: seq<Call>, b: seq<Call>, k: CallKind)
    ensures Count(a + b, k) == Count(a, k) + Count(b, k)
  {
    if b != [] {
      assert (a + b)[..|a + b| - 1] == a + b[..|b| - 1];
      CountAppend(a, b[..|b| - 1], k);
    } else {
      assert a + b == a;
    }
  }

  lemma CountSnoc(t: seq<Call>, c: Call, k: CallKind)
    ensures Count(t + [c], k) == Count(t, k) + (if c.Kind() == k then 1 else 0)
  {
    assert (t + [c])[..|t + [c]| - 1] == t;
  }

  /** 1 when c has kind k, 0 otherwise. */
  function Is(c: Call, k: CallKind): nat
  {
    if c.Kind() == k then 1 else 0
  }

  lemma CountPair(x: Call, y: Call, k: CallKind)
    ensures Count([x, y], k) == Is(x, k) + Is(y, k)
  {
    CountSnoc([], x, k);
    CountSnoc([x], y, k);
    assert [x] + [y] == [x, y];
  }

  lemma CountTriple(x: Call, y: Call, z: Call, k: CallKind)
    ensures Count([x, y, z], k) == Is(x, k) + Is(y, k) + Is(z, k)
  {
    CountPair(x, y, k);
    CountSnoc([x, y], z, k);
    assert [x, y] + [z] == [x, y, z];
  }

  /** A trace none of whose calls has kind k counts no call of kind k. */
  lemma {:induction false} CountNone(t: seq<Call>, k: CallKind)
    requires forall j | 0 <= j < |t| :: t[j].Kind() != k
    ensures Count(t, k) == 0
  {
    if t != [] {
      CountNone(t[..|t| - 1], k);
    }
  }

  lemma AppendAssoc(a: seq<Call>, b: seq<Call>, c: seq<Call>)
    ensures a + b + c == a + (b + c)
  {
  }

  /** Where a workflow stands with respect to the FX_FILE it opened. */
  datatype Phase = Held | Released | Violated

  function Advance(p: Phase, c: Call): Phase
  {
    match p
    case Held => if c.FileClose? then Released else if c.WhileHeld() then Held else Violated
    case Released => if c.AfterRelease() then Released else Violated
    case Violated => Violated
  }

  /** The phase reached by the calls t[n..], starting with the handle held. */
  function PhaseFrom(t: seq<Call>, n: nat): Phase
  {
    if |t| <= n then Held else Advance(PhaseFrom(t[..|t| - 1], n), t[|t| - 1])
  }

  /** The phase reached from p by the calls u. */
  function Run(p: Phase, u: seq<Call>): Phase
  {
    if u == [] then p else Advance(Run(p, u[..|u| - 1]), u[|u| - 1])
  }

  lemma RunPair(p: Phase, x: Call, y: Call)
    ensures Run(p, [x, y]) == Advance(Advance(p, x), y)
  {
    assert [x, y][..1] == [x];
    assert [x][..0] == [];
    assert Run(p, [x]) == Advance(p, x);
  }

  lemma RunTriple(p: Phase, x: Call, y: Call, z: Call)
    ensures Run(p, [x, y, z]) == Advance(Advance(Advance(p, x), y), z)
  {
    assert [x, y, z][..2] == [x, y];
    RunPair(p, x, y);
  }

  lemma {:induction false} RunAppend(p: Phase, u: seq<Call>, v: seq<Call>)
    ensures Run(p, u + v) == Run(Run(p, u), v)
  {
    if v == [] {
      assert u + v == u;
    } else {
      assert (u + v)[..|u + v| - 1] == u + v[..|v| - 1];
      RunAppend(p, u, v[..|v| - 1]);
    }
  }

  /** The phase after t + u from index n of t is the phase after t, run on through u. */
  lemma {:induction false} PhaseFromAppend(t: seq<Call>, u: seq<Call>, n: nat)
    requires n <= |t|
    ensures PhaseFrom(t + u, n) == Run(PhaseFrom(t, n), u)
  {
    if u == [] {
      assert t + u == t;
    } else {
      assert (t + u)[..|t + u| - 1] == t + u[..|u| - 1];
      PhaseFromAppend(t, u[..|u| - 1], n);
    }
  }

  lemma PhaseSnoc(t: seq<Call>, c: Call, n: nat)
    requires n <= |t|
    ensures PhaseFrom(t + [c], n) == Advance(PhaseFrom(t, n), c)
  {
    assert (t + [c])[..|t + [c]| - 1] == t;
  }

  /** While the handle is still held, no close happened and every call was a held-handle call. */
  lemma {:induction false} HeldMeans(t: seq<Call>, n: nat)
    requires n <= |t| && PhaseFrom(t, n) == Held
    ensures Count(t, Closes) == Count(t[..n], Closes)
    ensures forall k | n <= k < |t| :: t[k].WhileHeld()
  {
    if |t| > n {
      var s := t[..|t| - 1];
      assert t == s + [t[|t| - 1]];
      HeldMeans(s, n);
      assert s[..n] == t[..n];
      CountSnoc(s, t[|t| - 1], Closes);
    } else {
      assert t[..n] == t;
    }
  }

  /**
   * Once released, exactly one close happened in t[n..]; every call before it was a
   * held-handle call and every call after it uses no handle.
   */
  lemma {:induction false} ReleasedMeans(t: seq<Call>, n: nat)
    requires n <= |t| && PhaseFrom(t, n) == Released
    ensures Count(t, Closes) == Count(t[..n], Closes) + 1
    ensures forall j, k | n <= j < k < |t| && t[k].FileClose? :: t[j].WhileHeld()
    ensures forall j, k | n <= j < k < |t| && t[j].FileClose? :: t[k].AfterRelease()
  {
    var s := t[..|t| - 1];
    var c := t[|t| - 1];
    assert t == s + [c];
    assert s[..n] == t[..n];
    CountSnoc(s, c, Closes);
    if PhaseFrom(s, n) == Held {
      HeldMeans(s, n);
    } else {
      ReleasedMeans(s, n);
    }
  }

  /**
   * Calls u that take a held handle to Released, made after t: the one close is in u, every
   * call of u before it is a held-handle call and every call after it uses no handle.
   */
  lemma ReleasedAfter(t: seq<Call>, u: seq<Call>)
    requires Run(Held, u) == Released
    ensures var n := |t|;
      && PhaseFrom(t + u, n) == Released
      && Count(t + u, Closes) == Count(t, Closes) + 1
      && (forall j, k | n <= j < k < |t + u| && (t + u)[k].FileClose? :: (t + u)[j].WhileHeld())
      && (forall j, k | n <= j < k < |t + u| && (t + u)[j].FileClose? :: (t + u)[k].AfterRelease())
  {
    PhaseFromAppend(t, u, |t|);
    ReleasedMeans(t + u, |t|);
    assert (t + u)[..|t|] == t;
  }

  /**
   * The trace of a workflow that, after t, asks the gate (x), opens the file (y) and then
   * takes the handle from held to released by the calls h.
   */
  lemma OpenThenRelease(t: seq<Call>, x: Call, y: Call, h: seq<Call>)
    requires !x.FileClose? && !y.FileClose? && Run(Held, h) == Released
    ensures var t' := t + [x, y] + h;
      var n := |t| + 2;
      && n <= |t'| && t'[..n] == t + [x, y] && t'[n..] == h
      && PhaseFrom(t', n) == Released
      && Count(t', Closes) == Count(t, Closes) + 1
      && (forall j, k | n <= j < k < |t'| && t'[k].FileClose? :: t'[j].WhileHeld())
      && (forall j, k | n <= j < k < |t'| && t'[j].FileClose? :: t'[k].AfterRelease())
  {
    var t0 := t + [x, y];
    ReleasedAfter(t0, h);
    CountAppend(t, [x, y], Closes);
    CountPair(x, y, Closes);
    assert (t0 + h)[..|t0|] == t0 && (t0 + h)[|t0|..] == h;
  }

  /** A call of another kind framing a trace adds nothing to the count of kind k. */
  lemma CountFramed(x: Call, u: seq<Call>, v: seq<Call>, k: CallKind)
    requires x.Kind() != k && Count(v, k) == 0
    ensures Count([x] + u + v, k) == Count(u, k)
  {
    CountSnoc([], x, k);
    assert [] + [x] == [x];
    CountAppend([x], u, k);
    CountAppend([x] + u, v, k);
  }

  /** Held-handle calls keep the handle held. */
  lemma {:induction false} RunWhileHeld(u: seq<Call>)
    requires forall j | 0 <= j < |u| :: u[j].WhileHeld()
    ensures Run(Held, u) == Held
  {
    if u != [] {
      RunWhileHeld(u[..|u| - 1]);
    }
  }

  /** Calls that use no handle keep it released. */
  lemma {:induction false} RunAfterRelease(v: seq<Call>)
    requires forall j | 0 <= j < |v| :: v[j].AfterRelease()
    ensures Run(Released, v) == Released
  {
    if v != [] {
      RunAfterRelease(v[..|v| - 1]);
    }
  }

  /** Held-handle calls, one close, then calls that use no handle: the discipline of an open file. */
  lemma CloseReleases(u: seq<Call>, v: seq<Call>)
    requires forall j | 0 <= j < |u| :: u[j].WhileHeld()
    requires forall j | 0 <= j < |v| :: v[j].AfterRelease()
    ensures Run(Held, u + [FileClose] + v) == Released
  {
    RunWhileHeld(u);
    RunAfterRelease(v);
    RunAppend(Held, u, [FileClose]);
    assert Run(Held, [FileClose]) == Advance(Run(Held, []), FileClose);
    RunAppend(Held, u + [FileClose], v);
  }
}
