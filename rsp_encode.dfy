/**
 * Register words and memory layout of the vector coprocessor (RSP) as used by src/rsp.c.
 *
 * SP memory is the 8 KiB the CPU sees at 0xA4000000: data memory (DMEM) at offsets
 * 0x0000-0x0FFF and instruction memory (IMEM) at 0x1000-0x1FFF, modelled as bytes and read
 * as big-endian words.  A job's sixteen arguments are copied to the last 64 bytes of DMEM, and
 * a loaded library starts IMEM with a zero-terminated table of (name offset, function-table
 * offset) word pairs, which `rsp_lib_fn` searches.
 */
module RspEncode {
  import opened Words

  type byte = bv8

  const SpMemSize := 0x2000
  const ImemBase := 0x1000
  /** `0xA4001000 - 16*4`: where the arguments of a starting job go. */
  const ArgsBase := 0x1000 - 64
  const ArgCount := 16

  // ---------------------------------------------------------------- DMA register words

  /** SP_MEM_ADDR as written by `__rsp_dma_read`: only an offset within SP memory survives. */
  function DmaOffsetWord(offs: Word): (w: Word)
    ensures w < 0x2000
    ensures offs < 0x2000 ==> w == offs
    ensures w == offs % 0x2000
  {
    offs & 0x1FFF
  }

  /**
   * SP_RD_LEN as written by `__rsp_dma_read`: the hardware transfers one byte more than the
   * register says, so lengths 1..4096 are recoverable; a length of 0 wraps to 4096.
   */
  function DmaLengthWord(len: Word): (w: Word)
    ensures w < 0x1000
    ensures 1 <= len <= 0x1000 ==> w + 1 == len
    ensures len == 0 ==> w == 0xFFF
  {
    (len - 1) & 0x0FFF
  }

  /** The three fields of a block-DMA length word: row skip, row count - 1, row bytes - 1. */
  function BlkFields(skip: Word, rows: Word, rowBytes: Word): Word
  {
    (skip << 20) | (rows << 12) | rowBytes
  }

  /** When each quantity fits its field, the hardware reads all three back. */
  lemma BlkFieldsDecode(skip: Word, rows: Word, rowBytes: Word)
    requires skip < 0x1000 && rows < 0x100 && rowBytes < 0x1000
    ensures BlkFields(skip, rows, rowBytes) >> 20 == skip
    ensures (BlkFields(skip, rows, rowBytes) >> 12) & 0xFF == rows
    ensures BlkFields(skip, rows, rowBytes) & 0xFFF == rowBytes
  {
  }

  /** Bytes skipped after each row: `(pitch-width)*bpp`, with 32-bit wrap-around. */
  function BlkSkip(pitch: bv16, width: bv16, bpp: bv16): Word
  {
    ((pitch as bv32) - (width as bv32)) * (bpp as bv32)
  }

  /** Bytes per row: `width*bpp`. */
  function BlkRowBytes(width: bv16, bpp: bv16): Word
  {
    (width as bv32) * (bpp as bv32)
  }

  /**
   * SP_RD_LEN as written by `__rsp_blk_read`: the row skip, `height` rows and the row length,
   * the last two stored minus one.
   */
  function BlkWord(pitch: bv16, width: bv16, height: bv16, bpp: bv16): Word
  {
    BlkFields(BlkSkip(pitch, width, bpp), (height as bv32) - 1, BlkRowBytes(width, bpp) - 1)
  }

  // ---------------------------------------------------------------- SP memory

  /** A byte of SP memory; addresses outside it read as 0. */
  function Byte(mem: seq<byte>, a: int): byte
  {
    if 0 <= a < |mem| then mem[a] else 0
  }

  function BigEndian(b0: byte, b1: byte, b2: byte, b3: byte): Word
  {
    ((b0 as bv32) << 24) | ((b1 as bv32) << 16) | ((b2 as bv32) << 8) | (b3 as bv32)
  }

  /** The word at byte offset `a`; a word not wholly inside SP memory reads as 0. */
  function WordAt(mem: seq<byte>, a: int): Word
  {
    if 0 <= a && a + 4 <= |mem| then BigEndian(mem[a], mem[a + 1], mem[a + 2], mem[a + 3]) else 0
  }

  /** How the big-endian CPU lays a word out in memory. */
  function WordBytes(w: Word): (b: seq<byte>)
    ensures |b| == 4
  {
    [(w >> 24) as byte, ((w >> 16) & 0xFF) as byte, ((w >> 8) & 0xFF) as byte, (w & 0xFF) as byte]
  }

  lemma WordBytesRoundTrip(w: Word)
    ensures BigEndian(WordBytes(w)[0], WordBytes(w)[1], WordBytes(w)[2], WordBytes(w)[3]) == w
  {
  }

  /** The bytes `memcpy` copies out of a `uint32_t` array. */
  function ArgsBytes(args: seq<Word>): (b: seq<byte>)
    ensures |b| == 4 * |args|
  {
    seq(4 * |args|, k requires 0 <= k < 4 * |args| => WordBytes(args[k / 4])[k % 4])
  }

  /**
   * `memcpy((void *)(0xA4001000 - 16*4), j->args, 16*4)`: the arguments replace the last 64
   * bytes of DMEM and nothing else changes.
   */
  function CopyArgs(mem: seq<byte>, args: seq<Word>): (r: seq<byte>)
    requires |mem| == SpMemSize && |args| == ArgCount
    ensures |r| == SpMemSize
    ensures forall a :: 0 <= a < SpMemSize && !(ArgsBase <= a < ImemBase) ==> r[a] == mem[a]
  {
    mem[..ArgsBase] + ArgsBytes(args) + mem[ImemBase..]
  }

  /** Reading the argument area back as words yields the job's arguments. */
  lemma CopyArgsReadsBack(mem: seq<byte>, args: seq<Word>, i: nat)
    requires |mem| == SpMemSize && |args| == ArgCount && i < ArgCount
    ensures WordAt(CopyArgs(mem, args), ArgsBase + 4 * i) == args[i]
  {
    var r := CopyArgs(mem, args);
    var a := ArgsBase + 4 * i;
    var b := WordBytes(args[i]);
    forall m | 0 <= m < 4 ensures r[a + m] == b[m]
    {
      assert r[a + m] == ArgsBytes(args)[4 * i + m];
      assert (4 * i + m) / 4 == i && (4 * i + m) % 4 == m;
    }
    WordBytesRoundTrip(args[i]);
  }

  // ---------------------------------------------------------------- the IMEM module table

  /** `p[i]` with `p` at the start of IMEM. */
  function TableWord(mem: seq<byte>, i: nat): Word
  {
    WordAt(mem, ImemBase + 4 * i)
  }

  /** A C string: no NUL before its terminator. */
  predicate CString(name: seq<byte>)
  {
    forall k :: 0 <= k < |name| ==> name[k] != 0
  }

  /** `strcmp((char *)(0xA4000000 + off), name) == 0` for the C string `name`. */
  predicate NameAt(mem: seq<byte>, off: int, name: seq<byte>)
  {
    && (forall k :: 0 <= k < |name| ==> Byte(mem, off + k) == name[k])
    && Byte(mem, off + |name|) == 0
  }

  /** The table entry at word `i` names `name`. */
  predicate EntryMatches(mem: seq<byte>, i: nat, name: seq<byte>)
  {
    NameAt(mem, TableWord(mem, i) as int, name)
  }

  /** Position of the first entry at or after word `i` (stepping by pairs) naming `name`. */
  function FindModule(mem: seq<byte>, name: seq<byte>, i: nat): Option<nat>
    decreases |mem| - 4 * i
  {
    if TableWord(mem, i) == 0 then None
    else if EntryMatches(mem, i, name) then Some(i)
    else FindModule(mem, name, i + 2)
  }

  /** One step of the search: a present entry is inside SP memory, and the search moves past it or stops. */
  lemma FindModuleStep(mem: seq<byte>, name: seq<byte>, i: nat)
    ensures TableWord(mem, i) != 0 ==> ImemBase + 4 * i + 4 <= |mem|
    ensures TableWord(mem, i) == 0 ==> FindModule(mem, name, i) == None
    ensures TableWord(mem, i) != 0 && EntryMatches(mem, i, name) ==> FindModule(mem, name, i) == Some(i)
    ensures TableWord(mem, i) != 0 && !EntryMatches(mem, i, name) ==> FindModule(mem, name, i) == FindModule(mem, name, i + 2)
  {
  }

  /** Entries 0, 2, .., t-2 are all present and none of them names `name`. */
  predicate Scanned(mem: seq<byte>, name: seq<byte>, t: nat)
  {
    forall k: nat :: k < t && k % 2 == 0 ==> TableWord(mem, k) != 0 && !EntryMatches(mem, k, name)
  }

  /** The value `rsp_lib_fn` returns: `f[fn]` of the first matching module, 0 if there is none. */
  function LibFnSpec(mem: seq<byte>, name: seq<byte>, fn: u32): Word
  {
    match FindModule(mem, name, 0)
    case None => 0
    case Some(i) => WordAt(mem, U32(TableWord(mem, i + 1) as int + 4 * fn))
  }

  /** Skipping over entries that do not match does not change the search result. */
  lemma {:induction false} ScanSkips(mem: seq<byte>, name: seq<byte>, j: nat, i: nat)
    requires j <= i && j % 2 == 0 && i % 2 == 0 && Scanned(mem, name, i)
    ensures FindModule(mem, name, j) == FindModule(mem, name, i)
    decreases i - j
  {
    if j < i {
      assert TableWord(mem, j) != 0 && !EntryMatches(mem, j, name);
      ScanSkips(mem, name, j + 2, i);
    }
  }

  /** What the search returns from an even position whose predecessors were all rejected. */
  lemma {:induction false} FindModuleFrom(mem: seq<byte>, name: seq<byte>, i: nat)
    requires i % 2 == 0 && Scanned(mem, name, i)
    ensures FindModule(mem, name, i).Some? ==>
      var m := FindModule(mem, name, i).value;
      m % 2 == 0 && i <= m && Scanned(mem, name, m) && TableWord(mem, m) != 0 && EntryMatches(mem, m, name)
    ensures FindModule(mem, name, i).None? ==>
      exists t: nat :: t % 2 == 0 && Scanned(mem, name, t) && TableWord(mem, t) == 0
    decreases |mem| - 4 * i
  {
    if TableWord(mem, i) == 0 {
    } else if EntryMatches(mem, i, name) {
    } else {
      assert Scanned(mem, name, i + 2) by {
        forall k: nat | k < i + 2 && k % 2 == 0
          ensures TableWord(mem, k) != 0 && !EntryMatches(mem, k, name)
        {
          if k >= i { assert k == i; }
        }
      }
      FindModuleFrom(mem, name, i + 2);
    }
  }

  /**
   * The search result is the first match or nothing: it is `Some(m)` exactly for the first
   * present entry `m` naming `name`, and `None` exactly when the zero terminator comes first.
   */
  lemma FindModuleIsFirstMatch(mem: seq<byte>, name: seq<byte>, m: nat)
    requires m % 2 == 0 && Scanned(mem, name, m)
    ensures TableWord(mem, m) != 0 && EntryMatches(mem, m, name) ==> FindModule(mem, name, 0) == Some(m)
    ensures TableWord(mem, m) == 0 ==> FindModule(mem, name, 0) == None
    ensures FindModule(mem, name, 0) == Some(m) ==> TableWord(mem, m) != 0 && EntryMatches(mem, m, name)
  {
    ScanSkips(mem, name, 0, m);
    FindModuleFrom(mem, name, 0);
  }

  /** `rsp_lib_fn` returns 0 when the table ends before any entry names the module. */
  lemma LibFnNotFound(mem: seq<byte>, name: seq<byte>, fn: u32, t: nat)
    requires t % 2 == 0 && Scanned(mem, name, t) && TableWord(mem, t) == 0
    ensures LibFnSpec(mem, name, fn) == 0
  {
    FindModuleIsFirstMatch(mem, name, t);
  }

  /** Otherwise it returns word `fn` of the function table of the first entry naming it. */
  lemma LibFnFirstMatch(mem: seq<byte>, name: seq<byte>, fn: u32, m: nat)
    requires m % 2 == 0 && Scanned(mem, name, m) && TableWord(mem, m) != 0 && EntryMatches(mem, m, name)
    ensures LibFnSpec(mem, name, fn) == WordAt(mem, U32(TableWord(mem, m + 1) as int + 4 * fn))
  {
    FindModuleIsFirstMatch(mem, name, m);
  }
}
