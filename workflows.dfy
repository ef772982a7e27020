/**
 * The four workflows of filex_file_operation.c as functions of the scripted environment:
 * each gives the status the workflow returns and the environment it leaves behind.
 * RETURN_ERR_STR(s, ...) returns s when s is not FX_SUCCESS.
 */
module Workflows {
  import opened FileXApi
  import opened Trace
  import opened Script
  import opened WriteBuffer

  /**
   * The status an error path returns after closing the file: a failed close takes
   * priority over the failure that caused the cleanup.
   */
  function AfterCleanup(failed: Status, closed: Status): (s: Status)
    ensures failed != FX_SUCCESS ==> s != FX_SUCCESS
    ensures s == FX_SUCCESS <==> failed == FX_SUCCESS && closed == FX_SUCCESS
    ensures closed != FX_SUCCESS ==> s == closed
    ensures closed == FX_SUCCESS ==> s == failed
  {
    if closed != FX_SUCCESS then closed else failed
  }

  /** Close the handle on an error path and return the resulting status. */
  function CloseAfter(failed: Status, w: World): (Status, World)
  {
    var (closed, w1) := Ask(w, FileClose);
    (AfterCleanup(failed, closed), w1)
  }

  /** file_create. */
  function CreateFlow(cfg: Config, w: World): (Status, World)
  {
    var (gate, w1) := Ask(w, MediaVerify);
    if gate != FX_SUCCESS then (FX_SUCCESS, w1)
    else
      var (created, w2) := Ask(w1, FileCreate(cfg.fileName));
      if created == FX_ALREADY_CREATED then (FX_SUCCESS, w2)
      else if created != FX_SUCCESS then (created, w2)
      else
        var (flushed, w3) := Ask(w2, MediaFlush);
        if flushed != FX_SUCCESS then (flushed, w3)
        else
          var (info, w4) := Ask(w3, DirectoryInformationGet(cfg.fileName));
          if info != FX_SUCCESS then (info, w4) else (FX_SUCCESS, w4)
  }

  /**
   * Iterations i .. WRITE_TIMES - 1 of the write loop of file_write, with the handle open.
   * FX_SUCCESS means every iteration completed and the handle is still open; any other
   * status is the one the workflow returns after closing the handle.
   */
  function WriteLoop(cfg: Config, data: seq<char>, i: nat, w: World): (Status, World)
    requires cfg.Valid()
    decreases cfg.writeTimes - i
  {
    if i >= cfg.writeTimes then (FX_SUCCESS, w)
    else
      var (written, w1) := Ask(w, FileWrite(cfg.writeBufferSize, data));
      if written != FX_SUCCESS then CloseAfter(written, w1)
      else
        var (waited, w2) := Ask(w1, EventWait);
        if waited != TX_SUCCESS then CloseAfter(waited, w2)
        else
          var w3 := if i % cfg.writeOnePercent == RESET_VALUE then Tell(w2, ProgressDot) else w2;
          WriteLoop(cfg, data, i + 1, w3)
  }

  /** file_write after the loop, with the file still open: time stamping. */
  function WriteFinish(cfg: Config, w: World): (Status, World)
  {
    var (timed, w1) := Ask(w, SystemTimeGet);
    if timed != FX_SUCCESS then CloseAfter(timed, w1)
    else
      var (dated, w2) := Ask(w1, SystemDateGet);
      if dated != FX_SUCCESS then CloseAfter(dated, w2)
      else
        var (stamped, w3) := Ask(w2, FileDateTimeSet(cfg.fileName, w.now));
        if stamped != FX_SUCCESS then CloseAfter(stamped, w3)
        else WriteRelease(cfg, w3)
  }

  /** The end of file_write: close, flush and entry query. */
  function WriteRelease(cfg: Config, w: World): (Status, World)
  {
    var (closed, w1) := Ask(w, FileClose);
    if closed != FX_SUCCESS then (closed, w1)
    else
      var (flushed, w2) := Ask(w1, MediaFlush);
      if flushed != FX_SUCCESS then (flushed, w2)
      else
        var (info, w3) := Ask(w2, DirectoryInformationGet(cfg.fileName));
        if info != FX_SUCCESS then (info, w3) else (FX_SUCCESS, w3)
  }

  /** file_write. */
  function WriteFlow(cfg: Config, w: World): (Status, World)
    requires cfg.Valid()
  {
    var (gate, w1) := Ask(w, MediaVerify);
    if gate != FX_SUCCESS then (FX_SUCCESS, w1) else WriteOpen(cfg, w1)
  }

  /** file_write once the gate has passed: opening the file for writing. */
  function WriteOpen(cfg: Config, w: World): (Status, World)
    requires cfg.Valid()
  {
    var (openResult, w1) := Ask(w, FileOpen(cfg.fileName, OpenForWrite));
    if openResult == FX_NOT_FOUND then (FX_SUCCESS, w1)
    else if openResult != FX_SUCCESS then (openResult, w1)
    else WriteHeld(cfg, w1)
  }

  /** file_write with the file open: truncate, then the loop, then the stamping. */
  function WriteHeld(cfg: Config, w: World): (Status, World)
    requires cfg.Valid()
  {
    var (truncated, w1) := Ask(w, FileTruncate(cfg.truncateValue));
    if truncated != FX_SUCCESS then CloseAfter(truncated, w1)
    else
      var (looped, w2) := WriteLoop(cfg, FixedBuffer(cfg), 0, w1);
      if looped != FX_SUCCESS then (looped, w2) else WriteFinish(cfg, w2)
  }

  /**
   * Whether file_write, started at answer a of the script r, gets past the gate, the open
   * and the truncate, which is where it builds the write buffer.
   */
  predicate WriteReachesBuffer(r: seq<Status>, a: nat)
  {
    Scripted(r, a) == FX_SUCCESS && Scripted(r, a + 1) == FX_SUCCESS && Scripted(r, a + 2) == FX_SUCCESS
  }

  /**
   * The number of bytes file_read emits from its READ_BUFFER_SIZE + 1 byte buffer after
   * reading len bytes.
   */
  function EmittedLength(cap: nat, len: nat): (n: nat)
    ensures n <= cap + ONE_BYTE && n <= len + ONE_BYTE
    ensures n == len + ONE_BYTE || n == cap + ONE_BYTE
  {
    if cap > len then len + ONE_BYTE else cap + ONE_BYTE
  }

  /** file_read. */
  function ReadFlow(cfg: Config, w: World): (Status, World)
  {
    var (gate, w1) := Ask(w, MediaVerify);
    if gate != FX_SUCCESS then (FX_SUCCESS, w1) else ReadOpen(cfg, w1)
  }

  /** file_read once the gate has passed: opening the file for reading. */
  function ReadOpen(cfg: Config, w: World): (Status, World)
  {
    var (openResult, w1) := Ask(w, FileOpen(cfg.fileName, OpenForRead));
    if openResult == FX_NOT_FOUND then (FX_SUCCESS, w1)
    else if openResult != FX_SUCCESS then (openResult, w1)
    else ReadHeld(cfg, w1)
  }

  /** file_read with the file open: seek, read and the completion wait. */
  function ReadHeld(cfg: Config, w: World): (Status, World)
  {
    var (sought, w1) := Ask(w, FileSeek(cfg.seekValue));
    if sought != FX_SUCCESS then CloseAfter(sought, w1)
    else
      var (read, len, w2) := AskRead(w1, FileRead(cfg.readBufferSize));
      if read != FX_END_OF_FILE && read != FX_SUCCESS then CloseAfter(read, w2)
      else
        var (waited, w3) := Ask(w2, EventWait);
        if waited != TX_SUCCESS then CloseAfter(waited, w3)
        else ReadRelease(cfg, len, w3)
  }

  /** file_read after a read of len bytes: close, entry query and the content dump. */
  function ReadRelease(cfg: Config, len: nat, w: World): (Status, World)
  {
    var (closed, w1) := Ask(w, FileClose);
    if closed != FX_SUCCESS then (closed, w1)
    else
      var (info, w2) := Ask(w1, DirectoryInformationGet(cfg.fileName));
      if info != FX_SUCCESS then (info, w2)
      else (FX_SUCCESS, Tell(w2, EmitContent(EmittedLength(cfg.readBufferSize, len))))
  }

  /** file_delete. */
  function DeleteFlow(cfg: Config, w: World): (Status, World)
  {
    var (gate, w1) := Ask(w, MediaVerify);
    if gate != FX_SUCCESS then (FX_SUCCESS, w1)
    else
      var (deleted, w2) := Ask(w1, FileDelete(cfg.fileName));
      if deleted == FX_NOT_FOUND then (FX_SUCCESS, w2)
      else if deleted != FX_SUCCESS then (deleted, w2)
      else
        var (flushed, w3) := Ask(w2, MediaFlush);
        if flushed != FX_SUCCESS then (flushed, w3) else (FX_SUCCESS, w3)
  }
}
