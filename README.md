# FileX file operations: create, write, read and delete

A Dafny model of `filex_file_operation.c`, the file workflows of the Renesas FileX exFAT
block-media sample. The file has four public workflows and one private helper:

- `file_create` creates `FILE_NAME_ONE`, flushes the media and queries the new entry.
- `file_write` does these steps in order:
  - opens the file and truncates it;
  - fills `g_write_data` with `create_fixed_buffer`;
  - writes the buffer `WRITE_TIMES` times, waits for the transfer-complete event after each write, and prints a progress dot every `WRITE_ONE_PERCENT` iterations;
  - stamps the file with the system date and time, closes it, flushes the media and queries the entry.
- `file_read` opens the file, seeks and reads once. It treats an end of file as success, waits for the completion event, closes the file, queries the entry and dumps what it read.
- `file_delete` deletes the file and flushes the media.

Every workflow first asks the media gate (`media_verify`). When the gate is closed it returns `FX_SUCCESS` without doing anything else. A file that already exists, for create, or is missing, for write, read and delete, is not an error. Every step that fails while a file is open is followed by a clean-up close. A failed close's status takes priority over the step that caused it.

How the model is built:

- **The environment.** Everything the workflows call outside this file is a scripted test double, the class `Environment.Env`. This covers FileX, ThreadX, the media gate, the clock and the console.
  - Each service answers the next status of a script `replies`. Past the end of the script it answers `FX_SUCCESS`.
  - `fx_file_read` also reports the next length of a script `lengths`.
  - The clock is a fixed `now`.
  - Every call is recorded in a ghost `trace` of `Trace.Call` values.
  - A ghost flag `handleOpen` tracks whether the workflow currently holds its `FX_FILE`.
- **The workflows.** The four workflows and `create_fixed_buffer` are methods of the class `FileOperation.FileEngine`. `FileEngine` owns `g_write_data` as an array.
  - Each workflow method is proved equal to a pure function in `Workflows` (`CreateFlow`, `WriteFlow`, `ReadFlow`, `DeleteFlow`). The function gives the returned status and the environment the workflow leaves behind.
  - Each workflow that opens a file (write and read) ensures that no handle is left open when it returns. file_create and file_delete never act on a handle; their methods leave the handle flag as it was, and FileCreate, called with no handle held, ends with none.
- **The properties.** They are proved about those functions, in the modules `WriteProperties`, `WriteOutcome`, `ReadOutcome`, `CreateOutcome` and `DeleteOutcome`. They state the returned status, the calls made, the handle protocol, and the write, wait and progress-dot counts. Each is stated against an independent reference definition:
  - `FirstFailure` over script positions, for the returned status;
  - closed-form call lists, for the calls made;
  - the phase automaton `Trace.Run`, for the handle protocol.
- **Build constants.** `WRITE_TIMES`, `WRITE_BUFFER_SIZE` and the other build constants are symbolic fields of `FileXApi.Config`. Their values are not part of this model, so every property holds for all constants that satisfy `Config.Valid`.

The script positions file_write uses, for a workflow started with the cursor at `a`, with `b = a + 3 + 2 * WRITE_TIMES`:

| position | step |
|---|---|
| `a` | gate |
| `a + 1` | open |
| `a + 2` | truncate |
| `a + 3 + 2j` | write of iteration `j` |
| `a + 4 + 2j` | wait of iteration `j` |
| `b`, `b + 1`, `b + 2` | time, date, stamp |
| `b + 3`, `b + 4`, `b + 5` | close, flush, entry query |

A step that fails while the file is open is followed by the clean-up close at the next position.

## Model

| member | source | states |
|---|---|---|
| WriteBuffer.StrnCpy | cpkcor_ra8d1b/filex_exfat_block_media_sd_cpkcor_ra8d1b_ep/e2studio_llvm/src/filex_file_operation.c:52 | strncpy stores exactly n characters. Character j is the source's character while j is below the length of the source's C string, and NUL after it. No terminator is added when the string is n or more long. |
| WriteBuffer.Nuls | cpkcor_ra8d1b/filex_exfat_block_media_sd_cpkcor_ra8d1b_ep/e2studio_llvm/src/filex_file_operation.c:47 | The memset of the buffer stores n NUL characters. |
| WriteBuffer.RepeatSlot | cpkcor_ra8d1b/filex_exfat_block_media_sd_cpkcor_ra8d1b_ep/e2studio_llvm/src/filex_file_operation.c:50-54 | Slot i of k back-to-back line copies is the line itself, and it lies inside the copies. |
| WriteBuffer.FixedBufferTail | cpkcor_ra8d1b/filex_exfat_block_media_sd_cpkcor_ra8d1b_ep/e2studio_llvm/src/filex_file_operation.c:42-55 | For every valid configuration, the filled g_write_data is WRITE_BUFFER_SIZE bytes long and its last WRITE_BUFFER_SIZE % WRITE_LINE_SIZE bytes are NUL. With no whole slot the loop never runs and the whole buffer is NUL from the memset. |
| WriteBuffer.FixedBufferLayout | cpkcor_ra8d1b/filex_exfat_block_media_sd_cpkcor_ra8d1b_ep/e2studio_llvm/src/filex_file_operation.c:50-54 | Every whole slot k below WRITE_BUFFER_SIZE / WRITE_LINE_SIZE lies inside the buffer and holds WRITE_LINE_TEXT, NUL-padded to WRITE_LINE_SIZE. |
| FileOperation.FileEngine.StrnCpyAt | cpkcor_ra8d1b/filex_exfat_block_media_sd_cpkcor_ra8d1b_ep/e2studio_llvm/src/filex_file_operation.c:52-53 | The strncpy at p_data writes StrnCpy of the line into bytes [p, p+n) and leaves every other byte of g_write_data unchanged. |
| FileOperation.FileEngine.CreateFixedBuffer | cpkcor_ra8d1b/filex_exfat_block_media_sd_cpkcor_ra8d1b_ep/e2studio_llvm/src/filex_file_operation.c:42-55 | After the memset and the slot loop, g_write_data holds exactly FixedBuffer(cfg), the layout FixedBufferTail and FixedBufferLayout describe. |
| FileOperation.FileEngine.constructor | cpkcor_ra8d1b/filex_exfat_block_media_sd_cpkcor_ra8d1b_ep/e2studio_llvm/src/filex_file_operation.c:29-30 | g_write_data starts as WRITE_BUFFER_SIZE NUL bytes. |
| Workflows.AfterCleanup | cpkcor_ra8d1b/filex_exfat_block_media_sd_cpkcor_ra8d1b_ep/e2studio_llvm/src/filex_file_operation.c:150-158 | An error path's status is never FX_SUCCESS when the step failed. It is FX_SUCCESS exactly when both the step and the close succeeded. A failed close's status is the one returned; with the close succeeding, the step's status is returned. |
| Workflows.EmittedLength | cpkcor_ra8d1b/filex_exfat_block_media_sd_cpkcor_ra8d1b_ep/e2studio_llvm/src/filex_file_operation.c:359-370 | The dump is len + 1 bytes or READ_BUFFER_SIZE + 1 bytes. It is never more than either, so it stays inside the READ_BUFFER_SIZE + 1 byte buffer. |
| FileOperation.FileEngine.FileCreate | cpkcor_ra8d1b/filex_exfat_block_media_sd_cpkcor_ra8d1b_ep/e2studio_llvm/src/filex_file_operation.c:63-110 | file_create returns CreateFlow's status and leaves the environment as CreateFlow says. No handle is open at the end. |
| FileOperation.FileEngine.CloseOnError | cpkcor_ra8d1b/filex_exfat_block_media_sd_cpkcor_ra8d1b_ep/e2studio_llvm/src/filex_file_operation.c:150-158 | The clean-up close releases the handle and returns AfterCleanup of the failed status and the close's status. |
| FileOperation.FileEngine.WriteChunks | cpkcor_ra8d1b/filex_exfat_block_media_sd_cpkcor_ra8d1b_ep/e2studio_llvm/src/filex_file_operation.c:164-196 | The write loop, as a while loop, ends as WriteLoop says. The handle stays open exactly when the loop succeeds. |
| FileOperation.FileEngine.FileWrite | cpkcor_ra8d1b/filex_exfat_block_media_sd_cpkcor_ra8d1b_ep/e2studio_llvm/src/filex_file_operation.c:118-263 | file_write returns WriteFlow's status and leaves the environment as WriteFlow says, with no handle open. g_write_data is the fixed buffer exactly when the gate, the open and the truncate succeed; otherwise it is unchanged. |
| FileOperation.FileEngine.FileRead | cpkcor_ra8d1b/filex_exfat_block_media_sd_cpkcor_ra8d1b_ep/e2studio_llvm/src/filex_file_operation.c:271-375 | file_read returns ReadFlow's status and leaves the environment as ReadFlow says, with no handle open. |
| FileOperation.FileEngine.ReleaseAndEmit | cpkcor_ra8d1b/filex_exfat_block_media_sd_cpkcor_ra8d1b_ep/e2studio_llvm/src/filex_file_operation.c:342-370 | The close, the entry query and the dump end as ReadRelease says, and the handle is released. |
| FileOperation.FileEngine.FileDelete | cpkcor_ra8d1b/filex_exfat_block_media_sd_cpkcor_ra8d1b_ep/e2studio_llvm/src/filex_file_operation.c:383-416 | file_delete returns DeleteFlow's status, leaves the environment as DeleteFlow says, and does not change whether a handle is held (it acts on none). |
| Environment.Env.FxFileOpen | cpkcor_ra8d1b/filex_exfat_block_media_sd_cpkcor_ra8d1b_ep/e2studio_llvm/src/filex_file_operation.c:135 | An open answers the next scripted status. The handle is held exactly when the open succeeded. |
| Environment.Env.FxFileClose | cpkcor_ra8d1b/filex_exfat_block_media_sd_cpkcor_ra8d1b_ep/e2studio_llvm/src/filex_file_operation.c:153 | A close can only be made on a held handle. Whatever it answers, the handle is no longer held. |
| Environment.Env.FxFileRead | cpkcor_ra8d1b/filex_exfat_block_media_sd_cpkcor_ra8d1b_ep/e2studio_llvm/src/filex_file_operation.c:315 | A read needs the held handle and answers the next scripted status and the next scripted length. |
| CreateOutcome.StepsMade | cpkcor_ra8d1b/filex_exfat_block_media_sd_cpkcor_ra8d1b_ep/e2studio_llvm/src/filex_file_operation.c:84-101 | Of n chained steps, those run are the ones up to and including the first failure. Every step before the last one run succeeded. |
| CreateOutcome.CreateOutcome | cpkcor_ra8d1b/filex_exfat_block_media_sd_cpkcor_ra8d1b_ep/e2studio_llvm/src/filex_file_operation.c:63-110 | file_create does exactly two things: it makes the calls CreateTrace lists (the gate, then create, flush and query up to the first failure), and it returns CreateExpected. |
| CreateOutcome.CreateExpectedMeans | cpkcor_ra8d1b/filex_exfat_block_media_sd_cpkcor_ra8d1b_ep/e2studio_llvm/src/filex_file_operation.c:69-101 | file_create fails iff the gate passes, the create is not FX_ALREADY_CREATED, and one of create, flush and query fails. |
| CreateOutcome.CreateExisting | cpkcor_ra8d1b/filex_exfat_block_media_sd_cpkcor_ra8d1b_ep/e2studio_llvm/src/filex_file_operation.c:78-82 | An existing file gives FX_SUCCESS after the create, with no flush and no query. |
| CreateOutcome.CreateUsesNoHandle | cpkcor_ra8d1b/filex_exfat_block_media_sd_cpkcor_ra8d1b_ep/e2studio_llvm/src/filex_file_operation.c:63-110 | file_create makes no call on a file handle. |
| DeleteOutcome.DeleteOutcome | cpkcor_ra8d1b/filex_exfat_block_media_sd_cpkcor_ra8d1b_ep/e2studio_llvm/src/filex_file_operation.c:383-416 | file_delete does exactly two things: it makes the calls DeleteTrace lists (the gate, then delete and flush up to the first failure), and it returns DeleteExpected. |
| DeleteOutcome.DeleteExpectedMeans | cpkcor_ra8d1b/filex_exfat_block_media_sd_cpkcor_ra8d1b_ep/e2studio_llvm/src/filex_file_operation.c:387-410 | file_delete fails iff the gate passes, the delete is not FX_NOT_FOUND, and the delete or the flush fails. |
| DeleteOutcome.DeleteMissing | cpkcor_ra8d1b/filex_exfat_block_media_sd_cpkcor_ra8d1b_ep/e2studio_llvm/src/filex_file_operation.c:397-401 | A missing file gives FX_SUCCESS after the delete, with no flush. |
| DeleteOutcome.DeleteUsesNoHandle | cpkcor_ra8d1b/filex_exfat_block_media_sd_cpkcor_ra8d1b_ep/e2studio_llvm/src/filex_file_operation.c:383-416 | file_delete makes no call on a file handle. |
| WriteProperties.MarksClosedForm | cpkcor_ra8d1b/filex_exfat_block_media_sd_cpkcor_ra8d1b_ep/e2studio_llvm/src/filex_file_operation.c:192-195 | Over n iterations the dot is printed at every multiple of WRITE_ONE_PERCENT, 0 included, which is ceil(n / WRITE_ONE_PERCENT) times. |
| WriteProperties.WriteLoopStatus | cpkcor_ra8d1b/filex_exfat_block_media_sd_cpkcor_ra8d1b_ep/e2studio_llvm/src/filex_file_operation.c:164-190 | The loop stops at the first failed write or wait and returns AfterCleanup of that status and the close's status, with the cursor just past the close. With no failure it returns FX_SUCCESS after 2 * WRITE_TIMES answers. |
| WriteProperties.WriteLoopTrace | cpkcor_ra8d1b/filex_exfat_block_media_sd_cpkcor_ra8d1b_ep/e2studio_llvm/src/filex_file_operation.c:164-196 | The loop's calls are those LoopTrace lists. Each completed iteration makes a write of the buffer, a wait, and a dot when due. A failed iteration makes its write, then its wait if the wait failed, then the close. |
| WriteProperties.WriteLoopFrame | cpkcor_ra8d1b/filex_exfat_block_media_sd_cpkcor_ra8d1b_ep/e2studio_llvm/src/filex_file_operation.c:164-196 | The loop changes nothing of the environment except the status cursor and the trace. |
| WriteProperties.LoopTraceCounts | cpkcor_ra8d1b/filex_exfat_block_media_sd_cpkcor_ra8d1b_ep/e2studio_llvm/src/filex_file_operation.c:164-196 | The loop's writes, waits, dots and closes, counted against the first failing script position. |
| WriteProperties.LoopTraceHandle | cpkcor_ra8d1b/filex_exfat_block_media_sd_cpkcor_ra8d1b_ep/e2studio_llvm/src/filex_file_operation.c:164-190 | A completed loop keeps the handle held. A failed loop has released it by exactly the clean-up close. Every write is of WRITE_BUFFER_SIZE bytes of the buffer and is followed by a wait or a close. |
| WriteProperties.WriteOpened | cpkcor_ra8d1b/filex_exfat_block_media_sd_cpkcor_ra8d1b_ep/e2studio_llvm/src/filex_file_operation.c:127-146 | With the gate and the open succeeding, file_write continues with the file held after those two calls. |
| WriteProperties.WriteFinishTrace | cpkcor_ra8d1b/filex_exfat_block_media_sd_cpkcor_ra8d1b_ep/e2studio_llvm/src/filex_file_operation.c:200-254 | After the loop, the calls are those FinishTrace lists and the status is FinishStatus. Time, date and stamp come first, each with a clean-up close; then the final close, flush and query stop at the first failure. |
| WriteProperties.WriteHeldTrace | cpkcor_ra8d1b/filex_exfat_block_media_sd_cpkcor_ra8d1b_ep/e2studio_llvm/src/filex_file_operation.c:148-254 | Once the file is open, file_write's calls are those HeldTrace lists: the truncate, then the loop, then the calls after the loop. |
| WriteOutcome.FinishStatusFirstFailure | cpkcor_ra8d1b/filex_exfat_block_media_sd_cpkcor_ra8d1b_ep/e2studio_llvm/src/filex_file_operation.c:200-244 | The status after the loop is the first-failure rule applied to the six steps. |
| WriteOutcome.HeldStatus | cpkcor_ra8d1b/filex_exfat_block_media_sd_cpkcor_ra8d1b_ep/e2studio_llvm/src/filex_file_operation.c:148-262 | Once the file is open, file_write returns HeldExpected. Before the final close, the first failed step is returned after its clean-up close, and the close's failure wins. After the final close, the first failure among close, flush and query is returned as it is. |
| WriteOutcome.HeldExpectedMeans | cpkcor_ra8d1b/filex_exfat_block_media_sd_cpkcor_ra8d1b_ep/e2studio_llvm/src/filex_file_operation.c:148-262 | Once the file is open, file_write succeeds iff every one of its steps succeeds: truncate, every write and wait, time, date, stamp, close, flush and query. |
| WriteOutcome.WriteStatus | cpkcor_ra8d1b/filex_exfat_block_media_sd_cpkcor_ra8d1b_ep/e2studio_llvm/src/filex_file_operation.c:118-263 | file_write returns WriteExpected. A closed gate and FX_NOT_FOUND give FX_SUCCESS. Any other open failure is returned as it is. Otherwise HeldExpected applies. |
| WriteOutcome.WriteGateClosed | cpkcor_ra8d1b/filex_exfat_block_media_sd_cpkcor_ra8d1b_ep/e2studio_llvm/src/filex_file_operation.c:127-132 | With the gate closed, file_write asks only the gate and returns FX_SUCCESS. |
| WriteOutcome.WriteOpenFails | cpkcor_ra8d1b/filex_exfat_block_media_sd_cpkcor_ra8d1b_ep/e2studio_llvm/src/filex_file_operation.c:134-146 | A failed open ends file_write with no further call. FX_NOT_FOUND gives FX_SUCCESS; any other failure is returned. |
| WriteOutcome.WriteTraceOpened | cpkcor_ra8d1b/filex_exfat_block_media_sd_cpkcor_ra8d1b_ep/e2studio_llvm/src/filex_file_operation.c:127-254 | With the file open, file_write's calls are the gate, the open, then HeldTrace. |
| WriteOutcome.HeldTraceHandle | cpkcor_ra8d1b/filex_exfat_block_media_sd_cpkcor_ra8d1b_ep/e2studio_llvm/src/filex_file_operation.c:148-254 | The calls made on the open file start with the truncate, take the handle from held to released, and pair every write with a wait or a close. |
| WriteOutcome.WriteReleasesHandle | cpkcor_ra8d1b/filex_exfat_block_media_sd_cpkcor_ra8d1b_ep/e2studio_llvm/src/filex_file_operation.c:134-254 | Once file_write has opened the file, it closes it exactly once on every path. The truncate comes first. Every call before the close acts while the file is held; only flush and query follow the close. Every write is of the fixed buffer and is followed by its wait or by the close. |
| WriteOutcome.WriteCountsAreLoops | cpkcor_ra8d1b/filex_exfat_block_media_sd_cpkcor_ra8d1b_ep/e2studio_llvm/src/filex_file_operation.c:148-254 | Every write, wait and progress dot of file_write comes from its loop. |
| WriteOutcome.LoopCounts | cpkcor_ra8d1b/filex_exfat_block_media_sd_cpkcor_ra8d1b_ep/e2studio_llvm/src/filex_file_operation.c:164-196 | A complete loop makes WRITE_TIMES writes and WRITE_TIMES waits and prints ceil(WRITE_TIMES / WRITE_ONE_PERCENT) dots. A loop failing in iteration k makes k + 1 writes, k waits (k + 1 if the wait failed), and the dots of the k completed iterations. |
| WriteOutcome.WriteCounts | cpkcor_ra8d1b/filex_exfat_block_media_sd_cpkcor_ra8d1b_ep/e2studio_llvm/src/filex_file_operation.c:160-196 | The same counts over all of file_write, once it has built the buffer. |
| ReadOutcome.ReadView | cpkcor_ra8d1b/filex_exfat_block_media_sd_cpkcor_ra8d1b_ep/e2studio_llvm/src/filex_file_operation.c:318 | The script with the read's FX_END_OF_FILE counted as success and nothing else changed. |
| ReadOutcome.ReadHeldExpectedMeans | cpkcor_ra8d1b/filex_exfat_block_media_sd_cpkcor_ra8d1b_ep/e2studio_llvm/src/filex_file_operation.c:302-354 | Once the file is open, file_read succeeds iff seek, wait, close and query succeed and the read answers FX_SUCCESS or FX_END_OF_FILE. |
| ReadOutcome.ReadHeldOutcome | cpkcor_ra8d1b/filex_exfat_block_media_sd_cpkcor_ra8d1b_ep/e2studio_llvm/src/filex_file_operation.c:302-375 | With the file open, file_read returns ReadHeldExpected and makes the calls ReadHeldTrace lists: seek, read and wait up to the first failure, then the close, then the query and the dump. |
| ReadOutcome.ReleaseOutcome | cpkcor_ra8d1b/filex_exfat_block_media_sd_cpkcor_ra8d1b_ep/e2studio_llvm/src/filex_file_operation.c:342-370 | From the close on, the first failure of close and query is returned as it is. Otherwise the dump follows. |
| ReadOutcome.ReadStatus | cpkcor_ra8d1b/filex_exfat_block_media_sd_cpkcor_ra8d1b_ep/e2studio_llvm/src/filex_file_operation.c:271-375 | file_read returns ReadExpected. A closed gate and FX_NOT_FOUND give FX_SUCCESS. Any other open failure is returned. Otherwise ReadHeldExpected applies. |
| ReadOutcome.ReadGateClosed | cpkcor_ra8d1b/filex_exfat_block_media_sd_cpkcor_ra8d1b_ep/e2studio_llvm/src/filex_file_operation.c:281-286 | With the gate closed, file_read asks only the gate and returns FX_SUCCESS. |
| ReadOutcome.ReadOpenFails | cpkcor_ra8d1b/filex_exfat_block_media_sd_cpkcor_ra8d1b_ep/e2studio_llvm/src/filex_file_operation.c:288-300 | A failed open ends file_read with no further call. FX_NOT_FOUND gives FX_SUCCESS; any other failure is returned. |
| ReadOutcome.ReadReleasesHandle | cpkcor_ra8d1b/filex_exfat_block_media_sd_cpkcor_ra8d1b_ep/e2studio_llvm/src/filex_file_operation.c:302-357 | Once file_read has opened the file, it closes it exactly once on every path. The seek comes first, every call before the close acts while the file is held, and only the query and the dump follow the close. |
| ReadOutcome.ReadEmits | cpkcor_ra8d1b/filex_exfat_block_media_sd_cpkcor_ra8d1b_ep/e2studio_llvm/src/filex_file_operation.c:359-370 | A successful file_read ends with the dump of EmittedLength(READ_BUFFER_SIZE, len) bytes, at most READ_BUFFER_SIZE + 1. |
| ReadOutcome.ReadEndOfFileContinues | cpkcor_ra8d1b/filex_exfat_block_media_sd_cpkcor_ra8d1b_ep/e2studio_llvm/src/filex_file_operation.c:315-331 | A read that answers FX_END_OF_FILE is not an error: file_read goes on to the completion wait. |

## Left out

- The FileX, ThreadX and media services are scripted statuses, not their implementations. fx_api.h, tx_api.h and filex_media_operation.c are not part of this model. media_verify is called at filex_file_operation.c:69, 128, 282 and 388 but its body is not shown, so the gate is an oracle: the next scripted status. The status values FX_SUCCESS 0x00, FX_NOT_FOUND 0x04, FX_END_OF_FILE 0x09, FX_ALREADY_CREATED 0x0B and TX_SUCCESS 0x00 are FileX and ThreadX's published codes.
- Environment.Env.FxFileRead: does not fill the read buffer and does not bound the reported length by READ_BUFFER_SIZE. The bytes on the medium are not modelled, so the dump is recorded by its length only.
- The contents of the medium (file sizes, truncation, the written bytes) are not modelled. The trace records each write's size and data instead.
- The entry information (entry_info_t, its memcpy'd name, PRINT_ENTRY_INFO) and every PRINT_INFO_STR / RETURN_ERR_STR message are output formatting. They are left out except for the progress dots and the content dump.
- OPERATION_TIME_OUT and the event flags' value are the wait service's business. A wait is one scripted status.
- The system clock is a fixed value of the script. The stamp records the date and time it reports.
- FileOperation.FileEngine.CreateFixedBuffer: requires WRITE_BUFFER_SIZE / WRITE_LINE_SIZE <= 65535 (Config.Valid). Beyond that the uint16_t counter wraps before reaching the bound and the function runs past the buffer.
- FileOperation.FileEngine.WriteChunks: requires WRITE_TIMES <= ULONG_MAX (Config.Valid), for the same reason with its ULONG counter.
- Concurrency with the media thread and its event signalling is not modelled. The wait is an ordinary call.
- The code prints one progress marker at every multiple of WRITE_ONE_PERCENT from 0, that is ceil(WRITE_TIMES / WRITE_ONE_PERCENT) markers, not WRITE_TIMES / WRITE_ONE_PERCENT (MarksClosedForm, LoopCounts).
