/**
 * filex_file_operation.c: the fixed write buffer and the create, write, read and delete
 * workflows, run against the scripted environment. Each workflow returns the status and
 * leaves the environment exactly as the matching function of the Workflows module says,
 * and never returns with the FX_FILE still open.
 */
module FileOperation {
  import opened FileXApi
  import opened Trace
  import opened Script
  import opened WriteBuffer
  import opened Workflows
  import opened Environment

  class FileEngine {
    const cfg: Config
    const env: Env
    /** g_write_data. */
    const writeData: array<char>

    ghost predicate Valid()
    {
      cfg.Valid() && writeData.Length == cfg.writeBufferSize
    }

    constructor (cfg: Config, env: Env)
      requires cfg.Valid()
      ensures Valid() && this.cfg == cfg && this.env == env
      ensures fresh(writeData) && writeData[..] == Nuls(cfg.writeBufferSize)
    {
      this.cfg := cfg;
      this.env := env;
      writeData := new char[cfg.writeBufferSize](_ => NUL);
    }

    /** strncpy(g_write_data + p, src, n). */
    method StrnCpyAt(p: nat, src: string, n: nat)
      requires p + n <= writeData.Length
      modifies writeData
      ensures writeData[p..p + n] == StrnCpy(src, n)
      ensures forall j | 0 <= j < writeData.Length && !(p <= j < p + n) :: writeData[j] == old(writeData[j])
    {
      var copied := StrnCpy(src, n);
      forall j | 0 <= j < n {
        writeData[p + j] := copied[j];
      }
    }

    /** create_fixed_buffer. */
    method CreateFixedBuffer()
      requires Valid()
      modifies writeData
      ensures writeData[..] == FixedBuffer(cfg)
    {
      var size := cfg.writeLineSize;
      forall j | 0 <= j < writeData.Length {
        writeData[j] := NUL;
      }
      var p: nat := 0;
      var i: nat := 0;
      while i < cfg.writeBufferSize / size
        invariant i <= cfg.LineCount() && p == i * size && p <= writeData.Length
        invariant writeData[..p] == Repeat(Line(cfg), i)
        invariant forall j | p <= j < writeData.Length :: writeData[j] == NUL
      {
        SlotInside(cfg.writeBufferSize, size, i);
        ghost var before := writeData[..p];
        StrnCpyAt(p, cfg.writeLineText, size);
        assert writeData[..p] == before;
        assert writeData[..p + size] == writeData[..p] + writeData[p..p + size];
        p := p + size;
        i := i + 1;
      }
      SlotsFit(cfg.writeBufferSize, size);
      assert writeData[..] == writeData[..p] + writeData[p..];
      assert writeData[p..] == Nuls(writeData.Length - p);
    }

    /** file_create. */
    method FileCreate() returns (status: Status)
      requires Valid() && !env.handleOpen
      modifies env
      ensures (status, env.State()) == CreateFlow(cfg, old(env.State()))
      ensures !env.handleOpen
    {
      status := env.VerifyMedia();
      if status != FX_SUCCESS {
        return FX_SUCCESS;
      }
      status := env.FxFileCreate(cfg.fileName);
      if status == FX_ALREADY_CREATED {
        return FX_SUCCESS;
      }
      if status != FX_SUCCESS {
        return status;
      }
      status := env.FxMediaFlush();
      if status != FX_SUCCESS {
        return status;
      }
      status := env.FxDirectoryInformationGet(cfg.fileName);
      if status != FX_SUCCESS {
        return status;
      }
      return FX_SUCCESS;
    }

    /** Closes the FX_FILE on an error path of file_write or file_read. */
    method CloseOnError(failed: Status) returns (status: Status)
      requires env.handleOpen
      modifies env
      ensures (status, env.State()) == CloseAfter(failed, old(env.State()))
      ensures !env.handleOpen
    {
      var closed := env.FxFileClose();
      if closed != FX_SUCCESS {
        return closed;
      }
      return failed;
    }

    /**
     * The write loop of file_write: WRITE_TIMES writes of g_write_data, each followed by
     * the completion wait. FX_SUCCESS leaves the file open; any other status is the one
     * file_write returns, with the file closed.
     */
    method WriteChunks() returns (status: Status)
      requires Valid() && env.handleOpen && writeData[..] == FixedBuffer(cfg)
      modifies env
      ensures (status, env.State()) == WriteLoop(cfg, FixedBuffer(cfg), 0, old(env.State()))
      ensures env.handleOpen == (status == FX_SUCCESS)
    {
      ghost var data := FixedBuffer(cfg);
      var i: nat := 0;
      while i < cfg.writeTimes
        invariant i <= cfg.writeTimes && env.handleOpen
        invariant WriteLoop(cfg, data, i, env.State()) == WriteLoop(cfg, data, 0, old(env.State()))
      {
        status := env.FxFileWrite(writeData, cfg.writeBufferSize);
        assert writeData[..cfg.writeBufferSize] == data;
        if status != FX_SUCCESS {
          status := CloseOnError(status);
          return;
        }
        status := env.TxEventFlagsGet();
        if status != TX_SUCCESS {
          status := CloseOnError(status);
          return;
        }
        if i % cfg.writeOnePercent == RESET_VALUE {
          env.PrintProgressDot();
        }
        i := i + 1;
      }
      return FX_SUCCESS;
    }

    /** file_write. */
    method FileWrite() returns (status: Status)
      requires Valid() && !env.handleOpen
      modifies env, writeData
      ensures (status, env.State()) == WriteFlow(cfg, old(env.State()))
      ensures !env.handleOpen
      ensures writeData[..] == if WriteReachesBuffer(env.replies, old(env.answered)) then FixedBuffer(cfg)
                               else old(writeData[..])
    {
      ghost var w0 := env.State();
      status := env.VerifyMedia();
      if status != FX_SUCCESS {
        return FX_SUCCESS;
      }
      assert WriteFlow(cfg, w0) == WriteOpen(cfg, env.State());
      status := env.FxFileOpen(cfg.fileName, OpenForWrite);
      if status == FX_NOT_FOUND {
        return FX_SUCCESS;
      }
      if status != FX_SUCCESS {
        return status;
      }
      assert WriteFlow(cfg, w0) == WriteHeld(cfg, env.State());
      status := env.FxFileExtendedTruncate(cfg.truncateValue);
      if status != FX_SUCCESS {
        status := CloseOnError(status);
        return;
      }
      CreateFixedBuffer();
      status := WriteChunks();
      if status != FX_SUCCESS {
        return;
      }
      assert WriteFlow(cfg, w0) == WriteFinish(cfg, env.State());
      var hour, min, sec;
      status, hour, min, sec := env.FxSystemTimeGet();
      if status != FX_SUCCESS {
        status := CloseOnError(status);
        return;
      }
      var year, month, date;
      status, year, month, date := env.FxSystemDateGet();
      if status != FX_SUCCESS {
        status := CloseOnError(status);
        return;
      }
      status := env.FxFileDateTimeSet(cfg.fileName, DateTime(year, month, date, hour, min, sec));
      if status != FX_SUCCESS {
        status := CloseOnError(status);
        return;
      }
      assert WriteFlow(cfg, w0) == WriteRelease(cfg, env.State());
      status := env.FxFileClose();
      if status != FX_SUCCESS {
        return status;
      }
      status := env.FxMediaFlush();
      if status != FX_SUCCESS {
        return status;
      }
      status := env.FxDirectoryInformationGet(cfg.fileName);
      if status != FX_SUCCESS {
        return status;
      }
      return FX_SUCCESS;
    }

    /** file_read. */
    method FileRead() returns (status: Status)
      requires Valid() && !env.handleOpen
      modifies env
      ensures (status, env.State()) == ReadFlow(cfg, old(env.State()))
      ensures !env.handleOpen
    {
      var readData := new char[cfg.readBufferSize + ONE_BYTE](_ => NUL);
      ghost var w0 := env.State();
      status := env.VerifyMedia();
      if status != FX_SUCCESS {
        return FX_SUCCESS;
      }
      assert ReadFlow(cfg, w0) == ReadOpen(cfg, env.State());
      status := env.FxFileOpen(cfg.fileName, OpenForRead);
      if status == FX_NOT_FOUND {
        return FX_SUCCESS;
      }
      if status != FX_SUCCESS {
        return status;
      }
      assert ReadFlow(cfg, w0) == ReadHeld(cfg, env.State());
      status := env.FxFileExtendedSeek(cfg.seekValue);
      if status != FX_SUCCESS {
        status := CloseOnError(status);
        return;
      }
      var len;
      status, len := env.FxFileRead(readData, cfg.readBufferSize);
      if status != FX_END_OF_FILE && status != FX_SUCCESS {
        status := CloseOnError(status);
        return;
      }
      status := env.TxEventFlagsGet();
      if status != TX_SUCCESS {
        status := CloseOnError(status);
        return;
      }
      assert ReadFlow(cfg, w0) == ReadRelease(cfg, len, env.State());
      status := ReleaseAndEmit(readData, len);
    }

    /**
     * The end of file_read after a read of len bytes into data: close, entry query, and the
     * dump of len + 1 bytes, or of the whole READ_BUFFER_SIZE + 1 byte buffer when the read
     * filled it.
     */
    method ReleaseAndEmit(data: array<char>, len: nat) returns (status: Status)
      requires Valid() && env.handleOpen && data.Length == cfg.readBufferSize + ONE_BYTE
      modifies env
      ensures (status, env.State()) == ReadRelease(cfg, len, old(env.State()))
      ensures !env.handleOpen
    {
      status := env.FxFileClose();
      if status != FX_SUCCESS {
        return status;
      }
      status := env.FxDirectoryInformationGet(cfg.fileName);
      if status != FX_SUCCESS {
        return status;
      }
      if cfg.readBufferSize > len {
        env.SendToRtt(data, len + ONE_BYTE);
      } else {
        env.SendToRtt(data, cfg.readBufferSize + ONE_BYTE);
      }
      return FX_SUCCESS;
    }

    /** file_delete. */
    method FileDelete() returns (status: Status)
      requires Valid()
      modifies env
      ensures (status, env.State()) == DeleteFlow(cfg, old(env.State()))
      ensures env.handleOpen == old(env.handleOpen)
    {
      status := env.VerifyMedia();
      if status != FX_SUCCESS {
        return FX_SUCCESS;
      }
      status := env.FxFileDelete(cfg.fileName);
      if status == FX_NOT_FOUND {
        return FX_SUCCESS;
      }
      if status != FX_SUCCESS {
        return status;
      }
      status := env.FxMediaFlush();
      if status != FX_SUCCESS {
        return status;
      }
      return FX_SUCCESS;
    }
  }
}
