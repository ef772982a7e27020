/**
 * The contents create_fixed_buffer leaves in g_write_data: WRITE_LINE_TEXT copied with
 * strncpy into every whole WRITE_LINE_SIZE slot, and NUL everywhere else.
 */
module WriteBuffer {
  import opened FileXApi

  /** The characters of a C string up to, not including, its first NUL. */
  function CString(s: string): (r: string)
    ensures |r| <= |s| && r == s[..|r|]
    ensures NUL !in r
    ensures |r| < |s| ==> s[|r|] == NUL
  {
    if s == [] || s[0] == NUL then [] else [s[0]] + CString(s[1..])
  }

  /**
   * The n characters strncpy(dst, src, n) stores: the string's characters while there are
   * any, NUL padding after them, and no terminator when the string is n or more long.
   */
  function StrnCpy(src: string, n: nat): (r: string)
    ensures |r| == n
    ensures forall j | 0 <= j < n :: r[j] == if j < |CString(src)| then src[j] else NUL
  {
    var c := CString(src);
    if n <= |c| then c[..n] else c + seq(n - |c|, _ => NUL)
  }

  /** n NUL characters, what memset(p, NULL_CHAR, n) stores. */
  function Nuls(n: nat): (r: string)
    ensures |r| == n
    ensures forall j | 0 <= j < n :: r[j] == NUL
  {
    seq(n, _ => NUL)
  }

  /** k copies of line, back to back. */
  function Repeat(line: string, k: nat): string
  {
    if k == 0 then [] else Repeat(line, k - 1) + line
  }

  /** What one slot holds: WRITE_LINE_TEXT as strncpy stores it into WRITE_LINE_SIZE bytes. */
  function Line(cfg: Config): string
    requires cfg.Valid()
  {
    StrnCpy(cfg.writeLineText, cfg.writeLineSize)
  }

  /** g_write_data after create_fixed_buffer: the filled slots, then the NUL remainder. */
  function FixedBuffer(cfg: Config): string
    requires cfg.Valid()
  {
    SlotsFit(cfg.writeBufferSize, cfg.writeLineSize);
    Repeat(Line(cfg), cfg.LineCount())
      + Nuls(cfg.writeBufferSize - cfg.LineCount() * cfg.writeLineSize)
  }

  /** The slot with index k, a sub-range of a buffer. */
  function Slot(buf: string, size: nat, k: nat): string
    requires (k + 1) * size <= |buf|
  {
    buf[k * size..(k + 1) * size]
  }

  lemma MulLeft(a: nat, b: nat, c: nat)
    requires a <= b
    ensures a * c <= b * c
  {
  }

  /** Whole slots never run past the buffer, and what is left over is the remainder. */
  lemma SlotsFit(size: nat, line: nat)
    requires line > 0
    ensures (size / line) * line <= size
    ensures size - (size / line) * line == size % line
  {
  }

  /** Slot k of the buffer, for k below the line count, lies inside the buffer. */
  lemma SlotInside(size: nat, line: nat, k: nat)
    requires line > 0 && k < size / line
    ensures (k + 1) * line <= (size / line) * line <= size
  {
    SlotsFit(size, line);
    MulLeft(k + 1, size / line, line);
  }

  lemma {:induction false} RepeatLength(line: string, k: nat)
    ensures |Repeat(line, k)| == k * |line|
  {
    if k > 0 {
      RepeatLength(line, k - 1);
      calc {
        |Repeat(line, k)|;
        (k - 1) * |line| + |line|;
        k * |line|;
      }
    }
  }

  /** Slot i of k back-to-back copies of line is line. */
  lemma {:induction false} RepeatSlot(line: string, k: nat, i: nat)
    requires i < k
    ensures |Repeat(line, k)| == k * |line|
    ensures (i + 1) * |line| <= k * |line|
    ensures Slot(Repeat(line, k), |line|, i) == line
  {
    RepeatLength(line, k);
    RepeatLength(line, k - 1);
    MulLeft(i + 1, k, |line|);
    var prefix := Repeat(line, k - 1);
    assert Repeat(line, k) == prefix + line;
    if i < k - 1 {
      RepeatSlot(line, k - 1, i);
      MulLeft(i + 1, k - 1, |line|);
      assert Slot(Repeat(line, k), |line|, i) == Slot(prefix, |line|, i);
    } else {
      assert i * |line| == |prefix|;
      assert (i + 1) * |line| == |prefix| + |line|;
    }
  }

  /**
   * g_write_data after create_fixed_buffer is WRITE_BUFFER_SIZE bytes long and its last
   * WRITE_BUFFER_SIZE % WRITE_LINE_SIZE bytes are NUL; the whole buffer is NUL when it has
   * no whole slot, as then only the memset runs.
   */
  lemma FixedBufferTail(cfg: Config)
    requires cfg.Valid()
    ensures |FixedBuffer(cfg)| == cfg.writeBufferSize
    ensures FixedBuffer(cfg)[cfg.writeBufferSize - cfg.writeBufferSize % cfg.writeLineSize..]
      == Nuls(cfg.writeBufferSize % cfg.writeLineSize)
    ensures cfg.LineCount() == 0 ==> FixedBuffer(cfg) == Nuls(cfg.writeBufferSize)
  {
    var line, n := Line(cfg), cfg.LineCount();
    SlotsFit(cfg.writeBufferSize, cfg.writeLineSize);
    RepeatLength(line, n);
    var slots := Repeat(line, n);
    var buf := FixedBuffer(cfg);
    assert buf == slots + Nuls(cfg.writeBufferSize - n * cfg.writeLineSize);
    assert buf[|slots|..] == Nuls(cfg.writeBufferSize - n * cfg.writeLineSize);
    if n == 0 {
      assert slots == [];
      assert buf == Nuls(cfg.writeBufferSize);
    }
  }

  /**
   * The slots of g_write_data after create_fixed_buffer: slot k, for every k below
   * WRITE_BUFFER_SIZE / WRITE_LINE_SIZE, lies inside the buffer and holds the line text
   * NUL-padded to WRITE_LINE_SIZE.
   */
  lemma FixedBufferLayout(cfg: Config, k: nat)
    requires cfg.Valid() && k < cfg.LineCount()
    ensures (k + 1) * cfg.writeLineSize <= cfg.writeBufferSize == |FixedBuffer(cfg)|
    ensures Slot(FixedBuffer(cfg), cfg.writeLineSize, k) == Line(cfg)
    ensures forall j | 0 <= j < cfg.writeLineSize ::
      Line(cfg)[j] == if j < |CString(cfg.writeLineText)| then cfg.writeLineText[j] else NUL
  {
    var line, n := Line(cfg), cfg.LineCount();
    FixedBufferTail(cfg);
    RepeatSlot(line, n, k);
    var slots := Repeat(line, n);
    var buf := FixedBuffer(cfg);
    assert buf == slots + Nuls(cfg.writeBufferSize - n * cfg.writeLineSize);
    assert Slot(buf, cfg.writeLineSize, k) == Slot(slots, cfg.writeLineSize, k);
  }
}
