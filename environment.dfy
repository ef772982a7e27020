/**
 * A test double for everything the workflows call outside filex_file_operation.c: the
 * media gate (media_verify), the FileX services, the ThreadX completion wait, the system
 * clock and the console output. Every service answers the next status of a script, and
 * every call is recorded in a ghost trace.
 */
module Environment {
  import opened FileXApi
  import opened Trace
  import opened Script

  class Env {
    /** The statuses the services answer, in order; past its end every answer is FX_SUCCESS. */
    const replies: seq<Status>
    /** How many statuses have been answered. */
    var answered: nat
    /** The lengths fx_file_read reports, in order; past its end 0. */
    const lengths: seq<nat>
    /** How many lengths have been reported. */
    var readsAnswered: nat
    /** What fx_system_date_get and fx_system_time_get report. */
    const now: DateTime
    /** Every call made so far. */
    ghost var trace: seq<Call>
    /** Whether a workflow holds an FX_FILE that it opened and has not closed yet. */
    ghost var handleOpen: bool

    ghost function State(): World
      reads this
    {
      World(replies, answered, lengths, readsAnswered, now, trace)
    }

    constructor (replies: seq<Status>, lengths: seq<nat>, now: DateTime)
      ensures State() == World(replies, 0, lengths, 0, now, []) && !handleOpen
    {
      this.replies := replies;
      this.lengths := lengths;
      answered, readsAnswered := 0, 0;
      this.now := now;
      trace := [];
      handleOpen := false;
    }

    /** Answers the next scripted status and records the call. */
    method Answer(c: Call) returns (st: Status)
      modifies this
      ensures (st, State()) == Ask(old(State()), c)
      ensures handleOpen == old(handleOpen)
    {
      st := Scripted(replies, answered);
      answered := answered + 1;
      trace := trace + [c];
    }

    /** media_verify: FX_SUCCESS when the medium is inserted and its volume is open. */
    method VerifyMedia() returns (st: Status)
      modifies this
      ensures (st, State()) == Ask(old(State()), MediaVerify)
      ensures handleOpen == old(handleOpen)
    {
      st := Answer(MediaVerify);
    }

    method FxFileCreate(name: string) returns (st: Status)
      modifies this
      ensures (st, State()) == Ask(old(State()), FileCreate(name))
      ensures handleOpen == old(handleOpen)
    {
      st := Answer(FileCreate(name));
    }

    /** fx_file_open on the single FX_FILE of a workflow; on success the handle is held. */
    method FxFileOpen(name: string, mode: OpenMode) returns (st: Status)
      requires !handleOpen
      modifies this
      ensures (st, State()) == Ask(old(State()), FileOpen(name, mode))
      ensures handleOpen == (st == FX_SUCCESS)
    {
      st := Answer(FileOpen(name, mode));
      handleOpen := st == FX_SUCCESS;
    }

    method FxFileExtendedTruncate(size: nat) returns (st: Status)
      requires handleOpen
      modifies this
      ensures (st, State()) == Ask(old(State()), FileTruncate(size))
      ensures handleOpen
    {
      st := Answer(FileTruncate(size));
    }

    /** fx_file_write of the first size bytes of data. */
    method FxFileWrite(data: array<char>, size: nat) returns (st: Status)
      requires handleOpen && size <= data.Length
      modifies this
      ensures (st, State()) == Ask(old(State()), FileWrite(size, data[..size]))
      ensures handleOpen
    {
      st := Answer(FileWrite(size, data[..size]));
    }

    /** tx_event_flags_get for the transfer-complete flag, with its timeout. */
    method TxEventFlagsGet() returns (st: Status)
      modifies this
      ensures (st, State()) == Ask(old(State()), EventWait)
      ensures handleOpen == old(handleOpen)
    {
      st := Answer(EventWait);
    }

    method FxSystemTimeGet() returns (st: Status, hour: nat, min: nat, sec: nat)
      modifies this
      ensures (st, State()) == Ask(old(State()), SystemTimeGet)
      ensures hour == now.hour && min == now.min && sec == now.sec
      ensures handleOpen == old(handleOpen)
    {
      st := Answer(SystemTimeGet);
      hour, min, sec := now.hour, now.min, now.sec;
    }

    method FxSystemDateGet() returns (st: Status, year: nat, month: nat, date: nat)
      modifies this
      ensures (st, State()) == Ask(old(State()), SystemDateGet)
      ensures year == now.year && month == now.month && date == now.date
      ensures handleOpen == old(handleOpen)
    {
      st := Answer(SystemDateGet);
      year, month, date := now.year, now.month, now.date;
    }

    method FxFileDateTimeSet(name: string, stamp: DateTime) returns (st: Status)
      modifies this
      ensures (st, State()) == Ask(old(State()), FileDateTimeSet(name, stamp))
      ensures handleOpen == old(handleOpen)
    {
      st := Answer(FileDateTimeSet(name, stamp));
    }

    /** fx_file_close: whatever it answers, the handle is no longer held. */
    method FxFileClose() returns (st: Status)
      requires handleOpen
      modifies this
      ensures (st, State()) == Ask(old(State()), FileClose)
      ensures !handleOpen
    {
      st := Answer(FileClose);
      handleOpen := false;
    }

    method FxMediaFlush() returns (st: Status)
      modifies this
      ensures (st, State()) == Ask(old(State()), MediaFlush)
      ensures handleOpen == old(handleOpen)
    {
      st := Answer(MediaFlush);
    }

    method FxDirectoryInformationGet(name: string) returns (st: Status)
      modifies this
      ensures (st, State()) == Ask(old(State()), DirectoryInformationGet(name))
      ensures handleOpen == old(handleOpen)
    {
      st := Answer(DirectoryInformationGet(name));
    }

    method FxFileExtendedSeek(offset: nat) returns (st: Status)
      requires handleOpen
      modifies this
      ensures (st, State()) == Ask(old(State()), FileSeek(offset))
      ensures handleOpen
    {
      st := Answer(FileSeek(offset));
    }

    /**
     * fx_file_read of at most size bytes into buffer: answers a status and the number of
     * bytes read. The bytes themselves are not modelled.
     */
    method FxFileRead(buffer: array<char>, size: nat) returns (st: Status, len: nat)
      requires handleOpen && size <= buffer.Length
      modifies this
      ensures (st, len, State()) == AskRead(old(State()), FileRead(size))
      ensures handleOpen
    {
      st := Answer(FileRead(size));
      len := Scripted(lengths, readsAnswered);
      readsAnswered := readsAnswered + 1;
    }

    method FxFileDelete(name: string) returns (st: Status)
      modifies this
      ensures (st, State()) == Ask(old(State()), FileDelete(name))
      ensures handleOpen == old(handleOpen)
    {
      st := Answer(FileDelete(name));
    }

    /** Prints one progress marker. */
    method PrintProgressDot()
      modifies this
      ensures State() == Tell(old(State()), ProgressDot)
      ensures handleOpen == old(handleOpen)
    {
      trace := trace + [ProgressDot];
    }

    /** send_data_to_rtt of the first size bytes of data. */
    method SendToRtt(data: array<char>, size: nat)
      requires size <= data.Length
      modifies this
      ensures State() == Tell(old(State()), EmitContent(size))
      ensures handleOpen == old(handleOpen)
    {
      trace := trace + [EmitContent(size)];
    }
  }
}
