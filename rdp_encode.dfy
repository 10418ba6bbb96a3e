/**
 * The pure half of the RDP driver (src/rdp.c): the power-of-two tables, the texture-cache
 * record, and the word packing of each command the driver builds.
 *
 * Screen coordinates go into commands as 10.2 fixed point placed with `x << 14` and `y << 2`
 * (one 12-bit field per coordinate); texture S/T offsets are 10.5 fixed point (`<< 5`).
 * Only the unit-scale path of `rdp_draw_textured_rectangle_scaled` is modelled, where every
 * floating-point factor is exactly 1.0.
 */
module RdpEncode {
  import opened Words

  // ---------------------------------------------------------------- power-of-two tables

  function Pow2(k: nat): nat
  {
    if k == 0 then 1 else 2 * Pow2(k - 1)
  }

  /** The texture sizes the rasterizer tiles support: 4, 8, ..., 128 and the 256 fallback. */
  predicate TileSize(p: int)
  {
    p == 4 || p == 8 || p == 16 || p == 32 || p == 64 || p == 128 || p == 256
  }

  /** `__rdp_round_to_power` (src/rdp.c:166-177). */
  function RoundToPower(n: u32): (r: u16)
    ensures TileSize(r)
    ensures n <= 128 ==> n <= r
    ensures n > 128 ==> r == 256
  {
    if n <= 4 then 4
    else if n <= 8 then 8
    else if n <= 16 then 16
    else if n <= 32 then 32
    else if n <= 64 then 64
    else if n <= 128 then 128
    else 256
  }

  /** `__rdp_log2` (src/rdp.c:187-207): a table lookup, 8 for anything not in the table. */
  function Log2(n: u32): (r: nat)
    ensures 2 <= r <= 8
  {
    if n == 4 then 2
    else if n == 8 then 3
    else if n == 16 then 4
    else if n == 32 then 5
    else if n == 64 then 6
    else if n == 128 then 7
    else 8
  }

  /** The rounding picks the smallest supported size that covers `n` (256 when none does). */
  lemma RoundToPowerIsLeastCover(n: u32, k: nat)
    requires 2 <= k <= 7 && n <= Pow2(k)
    ensures RoundToPower(n) <= Pow2(k)
  {
    PowersOfTwo();
  }

  /** The log2 table maps exactly the powers 4..128 to their exponents and everything else to 8. */
  lemma Log2OfPower(n: u32, k: nat)
    requires 2 <= k <= 7 && n == Pow2(k)
    ensures Log2(n) == k
  {
    PowersOfTwo();
  }

  /** `1 << log2(round(n)) == round(n)` for every `n`, so the tile mask covers the footprint. */
  lemma Log2InvertsRound(n: u32)
    ensures Pow2(Log2(RoundToPower(n))) == RoundToPower(n)
  {
    PowersOfTwo();
  }

  /** A value outside the table takes the default exponent 8. */
  lemma Log2Default(n: u32)
    requires forall k :: 2 <= k <= 7 ==> n != Pow2(k)
    ensures Log2(n) == 8
  {
    PowersOfTwo();
  }

  lemma PowersOfTwo()
    ensures Pow2(2) == 4 && Pow2(3) == 8 && Pow2(4) == 16 && Pow2(5) == 32
    ensures Pow2(6) == 64 && Pow2(7) == 128 && Pow2(8) == 256
  {
    assert Pow2(0) == 1;
    assert Pow2(1) == 2;
  }

  // ---------------------------------------------------------------- word packing

  /** A screen-space point as the high or low half of a rectangle word: `x << 14 | y << 2`. */
  function ScreenPair(x: Word, y: Word): Word
  {
    (x << 14) | (y << 2)
  }

  /**
   * For on-screen coordinates (below 1024 pixels) the pair occupies only the low 24 bits, so
   * an opcode OR-ed into the top byte survives, and both coordinates can be read back.
   */
  lemma ScreenPairDecodes(x: Word, y: Word)
    requires x < 1024 && y < 1024
    ensures ScreenPair(x, y) >> 24 == 0
    ensures (ScreenPair(x, y) >> 14) & 0x3FF == x
    ensures (ScreenPair(x, y) >> 2) & 0x3FF == y
    ensures (ScreenPair(x, y) >> 12) & 3 == 0 && ScreenPair(x, y) & 3 == 0
  {
  }

  /** A command word with `op` in the top byte and the point (x, y) below it. */
  function OpPair(op: Word, x: Word, y: Word): Word
  {
    (op << 24) | ScreenPair(x, y)
  }

  lemma OpPairDecodes(op: Word, x: Word, y: Word)
    requires op < 0x100 && x < 1024 && y < 1024
    ensures OpPair(op, x, y) >> 24 == op
    ensures (OpPair(op, x, y) >> 14) & 0x3FF == x
    ensures (OpPair(op, x, y) >> 2) & 0x3FF == y
  {
  }

  // ---------------------------------------------------------------- sync and clipping

  /** `sync_t` (include/rdp.h:21-31), in declaration order. */
  datatype SyncKind = SyncFull | SyncPipe | SyncLoad | SyncTile

  /** The opcode word `rdp_sync` queues for each kind (src/rdp.c:401-415). */
  function SyncOpcode(k: SyncKind): (w: Word)
    ensures w & 0x00FF_FFFF == 0
  {
    match k
    case SyncFull => 0xE900_0000
    case SyncPipe => 0xE700_0000
    case SyncTile => 0xE800_0000
    case SyncLoad => 0xE600_0000
  }

  /** Different barriers are different commands. */
  lemma SyncOpcodesDistinct(a: SyncKind, b: SyncKind)
    requires a != b
    ensures SyncOpcode(a) != SyncOpcode(b)
  {
  }

  /** `rdp_set_clipping` (src/rdp.c:432-438): opcode 0xED with the top-left, then the bottom-right. */
  function ClipCommand(tx: Word, ty: Word, bx: Word, bY: Word): seq<Word>
  {
    [OpPair(0xED, tx, ty), ScreenPair(bx, bY)]
  }

  /** On-screen corners can be read back from the clipping command. */
  lemma ClipCommandDecodes(tx: Word, ty: Word, bx: Word, bY: Word)
    requires tx < 1024 && ty < 1024 && bx < 1024 && bY < 1024
    ensures var ws := ClipCommand(tx, ty, bx, bY);
      && ws[0] >> 24 == 0xED
      && (ws[0] >> 14) & 0x3FF == tx && (ws[0] >> 2) & 0x3FF == ty
      && (ws[1] >> 14) & 0x3FF == bx && (ws[1] >> 2) & 0x3FF == bY
  {
    OpPairDecodes(0xED, tx, ty);
    ScreenPairDecodes(bx, bY);
  }

  /**
   * `rdp_draw_filled_rectangle` (src/rdp.c:994-1002): a negative top-left coordinate is
   * clamped to 0; the bottom-right is passed through.
   */
  function FilledRectCommand(tx: int, ty: int, bx: int, bY: int): seq<Word>
  {
    [OpPair(0xF6, W(bx), W(bY)), ScreenPair(W(ClampToScreen(tx)), W(ClampToScreen(ty)))]
  }

  /** A negative top-left coordinate becomes 0; others are kept. */
  function ClampToScreen(v: int): (r: nat)
    ensures v >= 0 ==> r == v
    ensures v < 0 ==> r == 0
  {
    if v < 0 then 0 else v
  }

  // ---------------------------------------------------------------- mode words

  /** The "set other modes" word of `rdp_texture_cycle` (src/rdp.c:560). */
  function OtherModesWord(atomicPrim: bv8, cycleMode: bv8, tlut: bv8, filter: bv8,
                          rgbDither: bv8, alphaDither: bv8): Word
  {
    0x2F00_0800 | ((atomicPrim as bv32) << 23) | ((cycleMode as bv32) << 20) | ((tlut as bv32) << 15)
      | ((filter as bv32) << 13) | ((rgbDither as bv32) << 6) | ((alphaDither as bv32) << 4)
  }

  /** With every toggle in its documented range the fields do not overlap and can be read back. */
  lemma OtherModesDecodes(atomicPrim: bv8, cycleMode: bv8, tlut: bv8, filter: bv8,
                          rgbDither: bv8, alphaDither: bv8)
    requires atomicPrim < 2 && cycleMode < 2 && tlut < 2 && filter < 2
    requires rgbDither < 4 && alphaDither < 4
    ensures var w := OtherModesWord(atomicPrim, cycleMode, tlut, filter, rgbDither, alphaDither);
      && w >> 24 == 0x2F
      && (w >> 23) & 1 == atomicPrim as bv32
      && (w >> 20) & 1 == cycleMode as bv32
      && (w >> 15) & 1 == tlut as bv32
      && (w >> 13) & 1 == filter as bv32
      && (w >> 6) & 3 == rgbDither as bv32
      && (w >> 4) & 3 == alphaDither as bv32
  {
  }

  /** The "set other modes" word of `rdp_enable_texture_copy` (src/rdp.c:483). */
  function TextureCopyWord(atomicPrim: bv8, tlut: bv8): Word
  {
    0xEF20_00FF | ((atomicPrim as bv32) << 23) | ((tlut as bv32) << 15)
  }

  lemma TextureCopyDecodes(atomicPrim: bv8, tlut: bv8)
    requires atomicPrim < 2 && tlut < 2
    ensures TextureCopyWord(atomicPrim, tlut) >> 24 == 0xEF
    ensures (TextureCopyWord(atomicPrim, tlut) >> 23) & 1 == atomicPrim as bv32
    ensures (TextureCopyWord(atomicPrim, tlut) >> 15) & 1 == tlut as bv32
  {
  }

  // ---------------------------------------------------------------- palettes

  /**
   * The colour-count field of `rdp_load_tlut` (src/rdp.c:625-634): 255 for an 8-bit palette;
   * for a 4-bit one `(pal_num << 6) - 1` truncated to a byte when 0 < pal_num < 16, else 15.
   */
  function TlutColorCount(palBp: u8, palNum: u8): (n: u8)
    ensures palBp != 0 ==> n == 255
    ensures palBp == 0 && (palNum == 0 || palNum >= 16) ==> n == 15
    ensures palBp == 0 && 0 < palNum < 16 ==> n == (64 * palNum - 1) % 256
  {
    if palBp == 0 then
      if 0 < palNum < 16 then U8(palNum * 64 - 1) else 15
    else 255
  }

  /** The three commands of `rdp_load_tlut`: texture image, tile setup, load TLUT on tile 7. */
  function TlutCommands(palBp: u8, palNum: u8, palette: u32): (cmds: seq<seq<Word>>)
    ensures |cmds| == 3 && forall k :: 0 <= k < 3 ==> |cmds[k]| == 2
    ensures cmds[0][1] == palette as bv32
    ensures (cmds[2][1] >> 12) & 0xFF == TlutColorCount(palBp, palNum) as bv32
    ensures cmds[2][1] >> 24 == 7 && cmds[1][1] >> 24 == 7
  {
    var n := TlutColorCount(palBp, palNum);
    TlutWordDecodes(n);
    [[0x3D10_0000, palette as bv32],
     [0x3500_0100, 0x0700_0000],
     [0x3000_0000, TlutWord(n)]]
  }

  /** The second word of the load-TLUT command: tile 7 and the colour count. */
  function TlutWord(n: u8): Word
  {
    0x0700_0000 | ((n as bv32) << 12)
  }

  lemma TlutWordDecodes(n: u8)
    ensures (TlutWord(n) >> 12) & 0xFF == n as bv32
    ensures TlutWord(n) >> 24 == 7
  {
  }

  // ---------------------------------------------------------------- texture loads

  /** The fields of `sprite_t` the driver reads (graphics.h is not part of this model). */
  datatype Sprite = Sprite(width: u16, height: u16, bitdepth: u8, format: u8,
                           hslices: u8, vslices: u8, data: u32)

  /**
   * `sprite_cache` (src/rdp.c:80-100): what the driver remembers about the texture in TMEM.
   * `width` and `height` hold the last texel index (size - 1); `realWidth`/`realHeight` the
   * rounded power-of-two footprint; `cpX`/`cpY` the embedded centre point; `cpStart` the
   * left-trim offset.
   */
  datatype TexCache = TexCache(width: u16, height: u16, realWidth: u16, realHeight: u16,
                               cpX: u8, cpY: u8, cpStart: u8)

  /** The zero-initialised static record. */
  const EmptyCache: TexCache := TexCache(0, 0, 0, 0, 0, 0, 0)

  /**
   * The record every load writes (src/rdp.c:689-690, 708-712): all seven fields at once,
   * from the loaded extent `sh` x `th` and the given centre point and trim.
   */
  function LoadedCache(sh: int, th: int, cpX: u8, cpY: u8, cpStart: u8): (c: TexCache)
    ensures c.width == sh % 0x1_0000 && c.height == th % 0x1_0000
    ensures c.realWidth == RoundToPower(U32(sh + 1)) && c.realHeight == RoundToPower(U32(th + 1))
    ensures c.cpX == cpX && c.cpY == cpY && c.cpStart == cpStart
  {
    TexCache(U16(sh), U16(th), RoundToPower(U32(sh + 1)), RoundToPower(U32(th + 1)), cpX, cpY, cpStart)
  }

  /** For a sprite of 1..128 texels a side, the cached footprint is the least power of two covering it. */
  lemma LoadedFootprintCovers(s: Sprite, k: nat)
    requires 1 <= s.width <= 128 && 2 <= k <= 7
    ensures var c := LoadedCache(s.width - 1, s.height - 1, s.hslices, s.vslices, s.format);
      && c.width + 1 == s.width <= c.realWidth
      && (s.width <= Pow2(k) ==> c.realWidth <= Pow2(k))
      && Pow2(Log2(c.realWidth)) == c.realWidth
  {
    var c := LoadedCache(s.width - 1, s.height - 1, s.hslices, s.vslices, s.format);
    assert c.width == s.width - 1;
    assert c.realWidth == RoundToPower(s.width);
    if s.width <= Pow2(k) {
      RoundToPowerIsLeastCover(s.width, k);
    }
    Log2InvertsRound(s.width);
  }

  /** The texture format field: 16-bit for bit depth 2, 32-bit otherwise. */
  function DepthBits(bitdepth: u8): Word
  {
    if bitdepth == 2 then 0x0010_0000 else 0x0018_0000
  }

  /** `(real_width >> 3) + round_amount`: the tile line length in 64-bit words, rounded up. */
  function TileLine(realWidth: u16): nat
  {
    realWidth / 8 + (if realWidth % 8 != 0 then 1 else 0)
  }

  /** `__rdp_log2` as the 32-bit value that is shifted into a command word. */
  function Log2Word(n: u32): (r: Word)
    ensures r < 16 && r as int == Log2(n)
  {
    if n == 4 then 2
    else if n == 8 then 3
    else if n == 16 then 4
    else if n == 32 then 5
    else if n == 64 then 6
    else if n == 128 then 7
    else 8
  }

  /** The mask word: `0x40100 | hbits << 14 | wbits << 4`. */
  function TileMaskWord(realWidth: u16, realHeight: u16): Word
  {
    0x0004_0100 | (Log2Word(realHeight) << 14) | (Log2Word(realWidth) << 4)
  }

  /** The load extent word: `((sh << 2) & 0xFFF) << 12 | ((th << 2) & 0xFFF)`. */
  function TileExtentWord(sh: int, th: int): Word
  {
    (((W(sh) << 2) & 0xFFF) << 12) | ((W(th) << 2) & 0xFFF)
  }

  /**
   * `__rdp_load_texture` (src/rdp.c:684-705): set texture image, set tile, load tile.
   * The record it writes is `LoadedCache(sh, th, hslices, vslices, format)`.
   */
  function LoadTextureCommands(s: Sprite, sh: int, th: int): (cmds: seq<seq<Word>>)
    ensures |cmds| == 3 && forall k :: 0 <= k < 3 ==> |cmds[k]| == 2
  {
    var c := LoadedCache(sh, th, s.hslices, s.vslices, s.format);
    [[0xFD00_0000 | DepthBits(s.bitdepth) | W(sh), s.data as bv32],
     [0xF500_0000 | DepthBits(s.bitdepth) | (((W(TileLine(c.realWidth)) << 1) & 0x1FF) << 9),
      TileMaskWord(c.realWidth, c.realHeight)],
     [0xF400_0000, TileExtentWord(sh, th)]]
  }

  /** `__rdp_load_texpal` (src/rdp.c:716-764): the 4- and 8-bit (palettised) variant, four commands. */
  function LoadTexpalCommands(s: Sprite, sh: int, th: int): (cmds: seq<seq<Word>>)
    ensures |cmds| == 4 && forall k :: 0 <= k < 4 ==> |cmds[k]| == 2
  {
    var bitDiv := if s.bitdepth == 0 then 1 else 0;
    var wideX := if s.bitdepth == 0 then s.width / 4 - 1 else s.width / 2 - 1;
    var c := LoadedCache(sh, th, s.hslices, s.vslices, s.format);
    var mathLine := (W(TileLine(c.realWidth)) & 0x1FF) >> bitDiv;
    [[0x3D10_0000 | W(wideX), s.data as bv32],
     [0x3510_0000 | (mathLine << 9), 0],
     [0x3400_0000, TileExtentWord(sh, th)],
     [0x3540_0000 | ((s.bitdepth as bv32) << 19) | (mathLine << 9), TileMaskWord(c.realWidth, c.realHeight)]]
  }

  /** `rdp_load_texbuf` (src/rdp.c:1276-1297): a 16-bit texture at the given address, three commands. */
  function LoadTexbufCommands(buffer: u32, sh: int, th: int): (cmds: seq<seq<Word>>)
    ensures |cmds| == 3 && forall k :: 0 <= k < 3 ==> |cmds[k]| == 2
  {
    var c := LoadedCache(sh, th, 0, 0, 0);
    [[0xFD10_0000 | W(sh), buffer as bv32],
     [0xF510_0000 | (((W(TileLine(c.realWidth)) << 1) & 0x1FF) << 9), TileMaskWord(c.realWidth, c.realHeight)],
     [0xF400_0000, TileExtentWord(sh, th)]]
  }

  /** The mask word carries log2 of the footprint, so `1 << field` is the cached footprint again. */
  lemma TileMaskDecodes(c: TexCache)
    requires TileSize(c.realWidth) && TileSize(c.realHeight)
    ensures (TileMaskWord(c.realWidth, c.realHeight) >> 4) & 0xF == Log2Word(c.realWidth)
    ensures (TileMaskWord(c.realWidth, c.realHeight) >> 14) & 0xF == Log2Word(c.realHeight)
    ensures Pow2(Log2(c.realWidth)) == c.realWidth && Pow2(Log2(c.realHeight)) == c.realHeight
  {
    Log2InvertsRound(c.realWidth);
    Log2InvertsRound(c.realHeight);
    MaskFields(Log2Word(c.realHeight), Log2Word(c.realWidth));
  }

  lemma MaskFields(hb: Word, wb: Word)
    requires hb < 16 && wb < 16
    ensures ((0x0004_0100 | (hb << 14) | (wb << 4)) >> 4) & 0xF == wb
    ensures ((0x0004_0100 | (hb << 14) | (wb << 4)) >> 14) & 0xF == hb
  {
  }

  // ---------------------------------------------------------------- textured rectangles

  /** Where a unit-scale textured rectangle is drawn and which texel starts it. */
  datatype RectPlan = RectPlan(tx: int, ty: int, bx: int, bY: int, s: u16, t: u16)

  /** The mirror adjustment of S (or T) for a texture of last index `w` in a footprint `rw`. */
  function MirrorTerm(w: u16, rw: u16): int
  {
    ((w + 1) + (rw - (w + 1)) * 2) * 32
  }

  /** Horizontal mirroring: flags 1 and 3 (any positive value but 2). */
  predicate MirrorS(flags: int) { flags > 0 && flags != 2 }

  /** Vertical mirroring: flags 2 and 3 (any positive value but 1). */
  predicate MirrorT(flags: int) { flags > 0 && flags != 1 }

  /** The 10.5 texel offset that clipping a negative origin `o` to 0 adds: `(-o) << 5`. */
  function ClipShift(o: int): int
  {
    if o < 0 then (-o) * 32 else 0
  }

  /**
   * `rdp_draw_textured_rectangle_scaled` at x_scale == y_scale == 1.0 (src/rdp.c:818-857):
   * None when the rectangle starts further left (or up) than the cached texture is wide (or
   * high), otherwise the clipped rectangle and its S/T origin.
   */
  function TexRectPlan(c: TexCache, pixelMode: int, tx: int, ty: int, bx: int, bY: int,
                       flags: int): (p: Option<RectPlan>)
    ensures p.None? <==> (tx < -(c.width as int) || ty < -(c.height as int))
  {
    if tx < 0 && tx < -(c.width as int) then None
    else
      var s0 := U16(ClipShift(tx));
      var tx1 := if tx < 0 then 0 else tx;
      if ty < 0 && ty < -(c.height as int) then None
      else
        var t0 := U16(ClipShift(ty));
        var ty1 := if ty < 0 then 0 else ty;
        var s1 := if MirrorS(flags) then U16(s0 + MirrorTerm(c.width, c.realWidth)) else s0;
        var t1 := if MirrorT(flags) then U16(t0 + MirrorTerm(c.height, c.realHeight)) else t0;
        var bx1 := if pixelMode == 1024 then bx + 1 else bx;
        var bY1 := if pixelMode == 1024 then bY + 1 else bY;
        Some(RectPlan(tx1, ty1, bx1, bY1, s1, t1))
  }

  /** The S:T word: two 16-bit halves. */
  function StPair(sw: Word, tw: Word): Word
  {
    (sw << 16) | tw
  }

  lemma StPairDecodes(sw: Word, tw: Word)
    requires sw < 0x1_0000 && tw < 0x1_0000
    ensures StPair(sw, tw) >> 16 == sw && StPair(sw, tw) & 0xFFFF == tw
  {
  }

  /**
   * The four words of the texture-rectangle command (src/rdp.c:856-861): opcode 0x24 with the
   * bottom-right corner, the top-left corner, S:T, and the per-pixel step (DsDx from the pixel
   * mode, DtDy fixed at 1024, i.e. 1.0 in 5.10).
   */
  function TexRectWords(p: RectPlan, pixelMode: int): (ws: seq<Word>)
    ensures |ws| == 4
  {
    [OpPair(0x24, W(p.bx), W(p.bY)),
     ScreenPair(W(p.tx), W(p.ty)),
     StPair(W(p.s), W(p.t)),
     StPair(W(pixelMode) & 0xFFFF, 1024)]
  }

  /**
   * The first word carries opcode 0x24 as long as the bottom-right corner is on screen (below
   * 1024 pixels); a larger coordinate spills into the opcode byte.
   */
  lemma TexRectOpcode(p: RectPlan, pixelMode: int)
    requires W(p.bx) < 1024 && W(p.bY) < 1024
    ensures TexRectWords(p, pixelMode)[0] >> 24 == 0x24
    ensures (TexRectWords(p, pixelMode)[0] >> 14) & 0x3FF == W(p.bx)
    ensures (TexRectWords(p, pixelMode)[0] >> 2) & 0x3FF == W(p.bY)
  {
    OpPairDecodes(0x24, W(p.bx), W(p.bY));
  }

  /** The command the unit-scale draw sends, or nothing. */
  function TexRectCommand(c: TexCache, pixelMode: int, tx: int, ty: int, bx: int, bY: int,
                          flags: int): seq<seq<Word>>
  {
    match TexRectPlan(c, pixelMode, tx, ty, bx, bY, flags)
    case None => []
    case Some(p) => [TexRectWords(p, pixelMode)]
  }

  /**
   * The clipping and mirroring rules: the origin is clamped to the screen, S (T) gains the
   * clipped amount in 10.5 fixed point and, when mirroring that axis, the mirror term, with
   * 16-bit wrap-around; the bottom-right corner moves by one pixel only in the 1-cycle mode.
   */
  lemma TexRectRules(c: TexCache, pixelMode: int, tx: int, ty: int, bx: int, bY: int, flags: int)
    requires tx >= -(c.width as int) && ty >= -(c.height as int)
    ensures var p := TexRectPlan(c, pixelMode, tx, ty, bx, bY, flags).value;
      && p.tx == (if tx < 0 then 0 else tx)
      && p.ty == (if ty < 0 then 0 else ty)
      && p.s == U16(ClipShift(tx) + (if MirrorS(flags) then MirrorTerm(c.width, c.realWidth) else 0))
      && p.t == U16(ClipShift(ty) + (if MirrorT(flags) then MirrorTerm(c.height, c.realHeight) else 0))
      && p.bx == bx + (if pixelMode == 1024 then 1 else 0)
      && p.bY == bY + (if pixelMode == 1024 then 1 else 0)
  {
    var s0 := ClipShift(tx);
    var t0 := ClipShift(ty);
    WrapAdd(s0, MirrorTerm(c.width, c.realWidth));
    WrapAdd(t0, MirrorTerm(c.height, c.realHeight));
  }

  lemma WrapAdd(a: int, b: int)
    ensures U16(U16(a) + b) == U16(a + b)
  {
  }

  /**
   * Clipping keeps texels aligned with the screen: without mirroring, and while the 10.5 S
   * origin does not wrap, the texel column drawn at any screen column `x` to the right of
   * the clipped origin is `x - tx`, exactly as if the rectangle had been drawn unclipped.
   */
  lemma ClippedTexelsStayAligned(c: TexCache, pixelMode: int, tx: int, ty: int, bx: int, bY: int,
                                 flags: int, x: int)
    requires -(c.width as int) <= tx && -(c.height as int) <= ty && !MirrorS(flags)
    requires -tx * 32 < 0x1_0000
    requires TexRectPlan(c, pixelMode, tx, ty, bx, bY, flags).value.tx <= x
    ensures var p := TexRectPlan(c, pixelMode, tx, ty, bx, bY, flags).value;
      p.s % 32 == 0 && p.s / 32 + (x - p.tx) == x - tx
  {
    TexRectRules(c, pixelMode, tx, ty, bx, bY, flags);
  }

  /**
   * The clipped-sprite scenario: a cached 32x32 texture drawn unmirrored at (-10, 5) is clamped
   * to x = 0 with S advanced by 10 texels (320 in 10.5), and its Y fields are untouched.
   */
  lemma ClippedSpriteScenario(pixelMode: int)
    ensures var c := LoadedCache(31, 31, 16, 16, 0);
      var p := TexRectPlan(c, pixelMode, -10, 5, -10 + 31, 5 + 31, 0).value;
      p.tx == 0 && p.s == 10 * 32 && p.ty == 5 && p.t == 0 && p.bY == 36 + (if pixelMode == 1024 then 1 else 0)
  {
  }

  // ---------------------------------------------------------------- centre-point sprites

  /** The centre point `rdp_cp_sprite` aligns: the caller's, unless both coordinates are 0. */
  function CentrePoint(c: TexCache, cpX: int, cpY: int): (int, int)
  {
    if cpX == 0 && cpY == 0 then (c.cpX - c.cpStart, c.cpY as int) else (cpX - c.cpStart, cpY)
  }

  /**
   * The rectangle `rdp_cp_sprite` draws (src/rdp.c:1126-1166), before clipping, as (tx, ty,
   * bx, by).  It spans the cached texture and is placed so that the centre point (cx, cy)
   * sits at (x, y + cache_line): measured from the left edge, or with X mirrored (any flags
   * but 0 and 2) cx + 1 from the right edge; measured from the top edge, or with Y mirrored
   * (flags above 1) from the bottom edge.
   */
  function CpSpriteRect(c: TexCache, cacheLine: int, x: int, y: int, flags: int, cpX: int,
                        cpY: int): (r: (int, int, int, int))
    ensures r.2 - r.0 == c.width && r.3 - r.1 == c.height
    ensures var cx := CentrePoint(c, cpX, cpY).0;
      if flags == 0 || flags == 2 then x - r.0 == cx else r.2 - x == cx + 1
    ensures var cy := CentrePoint(c, cpX, cpY).1;
      if flags > 1 then r.3 - (y + cacheLine) == cy else (y + cacheLine) - r.1 == cy
  {
    var (cx, cy) := CentrePoint(c, cpX, cpY);
    var x1 := if flags == 0 then x - cx else if flags != 2 then x - (c.width - cx - 1) else x - cx;
    var y1 := if flags > 1 then y - (c.height - cy) else y - cy;
    (x1, y1 + cacheLine, x1 + c.width, y1 + c.height + cacheLine)
  }

  /**
   * The placement mirrors exactly the axes the textured rectangle mirrors for the documented
   * flags 0..3; for a negative value the placement treats X as mirrored but the rectangle
   * does not.
   */
  lemma CpSpriteOrientationAgrees(flags: int)
    ensures 0 <= flags <= 3 ==> ((flags != 0 && flags != 2) <==> MirrorS(flags)) && (flags > 1 <==> MirrorT(flags))
    ensures flags < 0 ==> (flags != 0 && flags != 2) && !MirrorS(flags)
  {
  }

  /**
   * `cache_line` after the draw (src/rdp.c:1154-1172): reset to 0 unless stacking was asked
   * for (`line > 0`); then one texture height plus one further down for flags 0 and 1, or up
   * for mirrored-Y flags, with int16 wrap-around.
   */
  function NextCacheLine(c: TexCache, cacheLine: int, flags: int, line: int): (n: int)
    requires -0x8000 <= cacheLine < 0x8000
    ensures -0x8000 <= n < 0x8000
    ensures line <= 0 ==> n == 0
    ensures line > 0 && flags <= 1 ==> n == I16(cacheLine + (c.height + 1))
    ensures line > 0 && flags > 1 ==> n == I16(cacheLine - (c.height + 1))
  {
    var next := I16(if flags > 1 then -(c.height as int) - 1 else c.height + 1);
    if line > 0 then
      WrapAdd16(cacheLine, if flags > 1 then -(c.height as int) - 1 else c.height + 1);
      I16(cacheLine + next)
    else 0
  }

  lemma WrapAdd16(a: int, b: int)
    ensures I16(a + I16(b)) == I16(a + b)
  {
  }
}
