/**
 * Status vocabulary of the Azure FileX and ThreadX services that the file-operation
 * workflows call, the constants of filex.h, and the symbolic build constants of the
 * workflows.
 */
module FileXApi {

  /** A service return code (UINT). */
  type Status = nat

  // FileX and ThreadX return codes used by the workflows.
  const FX_SUCCESS: Status := 0x00
  const FX_NOT_FOUND: Status := 0x04
  const FX_END_OF_FILE: Status := 0x09
  const FX_ALREADY_CREATED: Status := 0x0B
  const TX_SUCCESS: Status := 0x00

  /** Size of the terminator added to copied names and to the read buffer. */
  const ONE_BYTE: nat := 1
  /** The zero the workflows initialise with and compare the progress remainder against. */
  const RESET_VALUE: nat := 0
  const NUL: char := '\0'

  const UINT16_MAX: nat := 0xFFFF
  const ULONG_MAX: nat := 0xFFFF_FFFF

  datatype OpenMode = OpenForRead | OpenForWrite

  /** The date and time fields that fx_system_date_get / fx_system_time_get deliver. */
  datatype DateTime = DateTime(year: nat, month: nat, date: nat, hour: nat, min: nat, sec: nat)

  /**
   * The build constants of the workflows. Their values are not part of this model, so they
   * stay symbolic; Valid() states what the code needs of them.
   */
  datatype Config = Config(
    fileName: string,          // FILE_NAME_ONE
    writeTimes: nat,           // WRITE_TIMES
    writeBufferSize: nat,      // WRITE_BUFFER_SIZE
    writeLineSize: nat,        // WRITE_LINE_SIZE
    writeLineText: string,     // WRITE_LINE_TEXT
    writeOnePercent: nat,      // WRITE_ONE_PERCENT
    readBufferSize: nat,       // READ_BUFFER_SIZE
    truncateValue: nat,        // TRUNCATE_VALUE
    seekValue: nat)            // SEEK_VALUE
  {
    /**
     * The line size and the progress interval are divisors; the uint16_t line counter of
     * create_fixed_buffer must reach the line count without wrapping, that is
     * WRITE_BUFFER_SIZE / WRITE_LINE_SIZE <= UINT16_MAX; the ULONG loop counter of
     * file_write must reach WRITE_TIMES.
     */
    predicate Valid() {
      && writeLineSize > 0
      && writeOnePercent > 0
      && writeBufferSize < (UINT16_MAX + 1) * writeLineSize
      && writeTimes <= ULONG_MAX
    }

    /** Number of whole line slots in the write buffer. */
    function LineCount(): nat
      requires writeLineSize > 0
    {
      writeBufferSize / writeLineSize
    }
  }
}
