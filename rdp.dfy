/**
 * The RDP driver's state and operations (src/rdp.c), as one object.
 *
 * The hardware registers DP_START/DP_END are replaced by `sent`, the log of commands handed
 * to the rasterizer; a cache write-back the driver requests before a texture load is recorded
 * in the ghost log `flushes`.  Every method states its new state in terms of the ring-buffer
 * functions of RdpRing and the encoders of RdpEncode.
 */
module Rdp {
  import opened Words
  import opened RdpRing
  import opened RdpEncode

  /** `flush_t` (include/rdp.h:36-42). */
  datatype FlushStrategy = FlushNone | FlushAutomatic

  /** The values the mode setters store: an on/off toggle, a dither mode, the alpha combiner bits. */
  type Toggle = x: bv8 | x < 2
  type Dither = x: bv8 | x < 4
  type AlphaBits = x: bv8 | x == 0 || x == 0x3F

  /** A C `int16_t`. */
  type I16Value = x: int | -0x8000 <= x < 0x8000

  /** The driver-wide settings other than the ring buffer, as one value. */
  datatype Settings = Settings(flush: FlushStrategy, cache: TexCache, pixelMode: I16Value, cacheLine: I16Value,
                               enableFilter: Toggle, enableAlpha: AlphaBits, enableTlut: Toggle, atomicPrim: Toggle,
                               rgbDither: Dither, alphaDither: Dither, cycleMode: Toggle)

  /** A cache write-back request: start address and length in bytes. */
  datatype Flush = Flush(addr: u32, len: int)

  /** `rdp_init`'s command: primitive colour set to opaque white. */
  const InitCommand: seq<Word> := [0x3A00_0000, 0xFFFF_FFFF]

  /** The commands `rdp_load_texture` sends for a whole sprite, by the TLUT toggle. */
  function SpriteCommands(s: Sprite, enableTlut: bv8): seq<seq<Word>>
  {
    if enableTlut == 0 then LoadTextureCommands(s, s.width - 1, s.height - 1)
    else LoadTexpalCommands(s, s.width - 1, s.height - 1)
  }

  /** The bytes `rdp_load_texture` writes back for a whole sprite: a 4-bit palettised one is half. */
  function SpriteFlushLength(s: Sprite, enableTlut: bv8): int
  {
    if enableTlut == 0 then s.width * s.height * s.bitdepth
    else if s.bitdepth == 0 then (s.width * s.height) / 2
    else s.width * s.height
  }

  /** With the TLUT toggle off, `rdp_load_texture` delegates to `__rdp_load_texture`. */
  lemma SpriteLoadDirect(s: Sprite, enableTlut: bv8)
    requires enableTlut == 0
    ensures SpriteCommands(s, enableTlut) == LoadTextureCommands(s, s.width - 1, s.height - 1)
    ensures SpriteFlushLength(s, enableTlut) == s.width * s.height * s.bitdepth
  {
  }

  /** With the TLUT toggle on, `rdp_load_texture` delegates to `__rdp_load_texpal`. */
  lemma SpriteLoadPalette(s: Sprite, enableTlut: bv8)
    requires enableTlut != 0
    ensures SpriteCommands(s, enableTlut) == LoadTexpalCommands(s, s.width - 1, s.height - 1)
    ensures SpriteFlushLength(s, enableTlut) == if s.bitdepth == 0 then (s.width * s.height) / 2 else s.width * s.height
  {
  }

  class Driver {
    /** `rdp_ringbuffer`: 1024 command words. */
    const buffer: array<Word>
    /** `rdp_start` and `rdp_end`: byte offsets into the buffer. */
    var start: nat
    var end: nat
    /** Everything handed to the rasterizer, one entry per send. */
    var sent: seq<seq<Word>>
    /** Every cache write-back requested for texture data. */
    ghost var flushes: seq<Flush>

    var flushStrategy: FlushStrategy
    var cache: TexCache
    var pixelMode: I16Value
    var cacheLine: I16Value
    var enableFilter: Toggle
    var enableAlpha: AlphaBits
    var enableTlut: Toggle
    var atomicPrim: Toggle
    var rgbDither: Dither
    var alphaDither: Dither
    var cycleMode: Toggle

    predicate CursorsInArray()
      reads this
    {
      buffer.Length == Slots && start <= end <= RingSize
    }

    /** The ring buffer as a value: the cursors and the words of the command in progress. */
    function View(): Ring
      reads this, buffer
      requires CursorsInArray()
    {
      Ring(start, end, buffer[start / 4 .. end / 4])
    }

    function CurrentSettings(): Settings
      reads this
    {
      Settings(flushStrategy, cache, pixelMode, cacheLine, enableFilter, enableAlpha, enableTlut,
               atomicPrim, rgbDither, alphaDither, cycleMode)
    }

    predicate Valid()
      reads this, buffer
    {
      && CursorsInArray()
      && Inv(View())
    }

    /** After emitting `cmds` from ring state `r0` with log `sent0`. */
    ghost predicate Emitted(r0: Ring, sent0: seq<seq<Word>>, cmds: seq<seq<Word>>)
      reads this, buffer
      requires CursorsInArray()
    {
      && View() == EmitAll(r0, cmds).0
      && sent == sent0 + EmitAll(r0, cmds).1
    }

    /** The static initial state (src/rdp.c:111-144). */
    constructor ()
      ensures Valid() && View() == Ring(0, 0, []) && sent == [] && flushes == []
      ensures CurrentSettings()
           == Settings(FlushAutomatic, EmptyCache, 4096, 0, 0, 0, 0, 1, 3, 3, 0)
    {
      buffer := new Word[Slots];
      start, end := 0, 0;
      sent := [];
      flushes := [];
      flushStrategy := FlushAutomatic;
      cache := EmptyCache;
      pixelMode := 4096;
      cacheLine := 0;
      enableFilter, enableAlpha, enableTlut := 0, 0, 0;
      atomicPrim := 1;
      rgbDither, alphaDither := 3, 3;
      cycleMode := 0;
    }

    /**
     * `__rdp_ringbuffer_queue` / `rdp_command` (src/rdp.c:226-241) with the corrected room
     * check `RdpRing.Admits` (the check as written is `RdpRing.AsWrittenQueue`): store `w` at
     * the end cursor and advance it, or drop `w` when there is no room.  Only that one slot changes.
     */
    method Queue(w: Word)
      requires Valid()
      modifies this, buffer
      ensures Valid()
      ensures View() == RdpRing.Queue(old(View()), w)
      ensures Admits(old(View())) ==> buffer[..] == old(buffer[..])[old(end) / 4 := w]
      ensures !Admits(old(View())) ==> buffer[..] == old(buffer[..]) && end == old(end)
      ensures sent == old(sent) && flushes == old(flushes) && CurrentSettings() == old(CurrentSettings())
    {
      if (end - start) + 4 < RingSize && end + 4 <= RingSize {
        ghost var before := buffer[start / 4 .. end / 4];
        buffer[end / 4] := w;
        end := end + 4;
        assert buffer[start / 4 .. end / 4] == before + [w];
      }
    }

    /**
     * `__rdp_ringbuffer_send` / `rdp_send` (src/rdp.c:251-303): hand the command in progress
     * to the rasterizer, then advance `start` to `end`, or reset both once past the slack mark.
     */
    method Send()
      requires Valid()
      modifies this
      ensures Valid()
      ensures View() == RdpRing.Send(old(View())).0
      ensures sent == old(sent) + RdpRing.Send(old(View())).1
      ensures start == end
      ensures flushes == old(flushes) && CurrentSettings() == old(CurrentSettings())
    {
      if end - start == 0 {
        return;
      }
      sent := sent + [buffer[start / 4 .. end / 4]];
      if end > RingSize - Slack {
        start, end := 0, 0;
      } else {
        start := end;
      }
    }

    /** Queue the words of one command, in order. */
    method QueueWords(ws: seq<Word>)
      requires Valid()
      modifies this, buffer
      ensures Valid()
      ensures View() == QueueAll(old(View()), ws)
      ensures sent == old(sent) && flushes == old(flushes) && CurrentSettings() == old(CurrentSettings())
    {
      ghost var before := View();
      var i := 0;
      while i < |ws|
        invariant 0 <= i <= |ws|
        invariant Valid()
        invariant View() == QueueAll(before, ws[..i])
        invariant sent == old(sent) && flushes == old(flushes) && CurrentSettings() == old(CurrentSettings())
      {
        Queue(ws[i]);
        assert ws[..i + 1][..i] == ws[..i];
        i := i + 1;
      }
      assert ws[..|ws|] == ws;
    }

    /** Queue the words of one command and send it. */
    method EmitCommand(ws: seq<Word>)
      requires Valid()
      modifies this, buffer
      ensures Valid()
      ensures View() == Emit(old(View()), ws).0 && sent == old(sent) + Emit(old(View()), ws).1
      ensures flushes == old(flushes) && CurrentSettings() == old(CurrentSettings())
    {
      QueueWords(ws);
      Send();
    }

    /** Queue the words of each command and send it, one command after another. */
    method EmitCommands(cmds: seq<seq<Word>>)
      requires Valid()
      modifies this, buffer
      ensures Valid()
      ensures Emitted(old(View()), old(sent), cmds)
      ensures Idle(old(View())) && AllFit(cmds) ==> sent == old(sent) + cmds && Idle(View())
      ensures flushes == old(flushes) && CurrentSettings() == old(CurrentSettings())
    {
      ghost var r0 := View();
      var k := 0;
      while k < |cmds|
        invariant 0 <= k <= |cmds|
        invariant Valid()
        invariant View() == EmitAll(r0, cmds[..k]).0
        invariant sent == old(sent) + EmitAll(r0, cmds[..k]).1
        invariant flushes == old(flushes) && CurrentSettings() == old(CurrentSettings())
      {
        ghost var v, s0 := View(), sent;
        EmitCommand(cmds[k]);
        EmitAllPrefix(r0, cmds, k);
        assert old(sent) + EmitAll(r0, cmds[..k + 1]).1 == s0 + Emit(v, cmds[k]).1;
        k := k + 1;
      }
      assert cmds[..|cmds|] == cmds;
      if Idle(r0) && AllFit(cmds) {
        EmitAllFromIdle(r0, cmds);
      }
    }

    /**
     * `rdp_init` (src/rdp.c:308-325): automatic flushing, cursors reset, then the primitive
     * colour command sent from the front of the buffer.
     */
    method Init()
      requires Valid()
      modifies this, buffer
      ensures Valid()
      ensures start == 8 && end == 8 && sent == old(sent) + [InitCommand]
      ensures flushes == old(flushes)
      ensures CurrentSettings() == old(CurrentSettings()).(flush := FlushAutomatic)
    {
      flushStrategy := FlushAutomatic;
      start, end := 0, 0;
      assert View() == Ring(0, 0, []);
      EmitCommands([InitCommand]);
      EmitFromIdle(Ring(0, 0, []), InitCommand);
      EmitAllSingle(Ring(0, 0, []), InitCommand);
    }

    /** `rdp_sync` (src/rdp.c:399-418): the barrier opcode and a zero word. */
    method Sync(kind: SyncKind)
      requires Valid()
      modifies this, buffer
      ensures Valid()
      ensures Emitted(old(View()), old(sent), [[SyncOpcode(kind), 0]])
      ensures flushes == old(flushes) && CurrentSettings() == old(CurrentSettings())
    {
      EmitCommands([[SyncOpcode(kind), 0]]);
    }

    /** `rdp_set_clipping` (src/rdp.c:432-438). */
    method SetClipping(tx: Word, ty: Word, bx: Word, bY: Word)
      requires Valid()
      modifies this, buffer
      ensures Valid()
      ensures Emitted(old(View()), old(sent), [ClipCommand(tx, ty, bx, bY)])
      ensures flushes == old(flushes) && CurrentSettings() == old(CurrentSettings())
    {
      EmitCommands([ClipCommand(tx, ty, bx, bY)]);
    }

    /** `rdp_enable_primitive_fill` (src/rdp.c:454-460): other modes set to fill. */
    method EnablePrimitiveFill()
      requires Valid()
      modifies this, buffer
      ensures Valid()
      ensures Emitted(old(View()), old(sent), [[0xEFB0_00FF, 0x0000_4000]])
      ensures flushes == old(flushes) && CurrentSettings() == old(CurrentSettings())
    {
      EmitCommands([[0xEFB0_00FF, 0x0000_4000]]);
    }

    /** `rdp_enable_blend_fill` (src/rdp.c:467-472). */
    method EnableBlendFill()
      requires Valid()
      modifies this, buffer
      ensures Valid()
      ensures Emitted(old(View()), old(sent), [[0xEF00_00FF, 0x8000_0000]])
      ensures flushes == old(flushes) && CurrentSettings() == old(CurrentSettings())
    {
      EmitCommands([[0xEF00_00FF, 0x8000_0000]]);
    }

    /** `rdp_enable_texture_copy` (src/rdp.c:480-489): copy mode, then the 4-pixel step. */
    method EnableTextureCopy()
      requires Valid()
      modifies this, buffer
      ensures Valid()
      ensures Emitted(old(View()), old(sent), [[TextureCopyWord(old(atomicPrim), old(enableTlut)), 0x0000_4001]])
      ensures flushes == old(flushes)
      ensures CurrentSettings() == old(CurrentSettings()).(pixelMode := 4096)
    {
      EmitCommands([[TextureCopyWord(atomicPrim, enableTlut), 0x0000_4001]]);
      pixelMode := 4096;
    }

    /** `rdp_enable_filter` (src/rdp.c:492-498): 0 stays 0, anything else becomes 1. */
    method EnableFilter(kind: int)
      requires Valid()
      modifies this
      ensures Valid() && View() == old(View()) && sent == old(sent) && flushes == old(flushes)
      ensures CurrentSettings() == old(CurrentSettings()).(enableFilter := if kind == 0 then 0 else 1)
    {
      enableFilter := if kind == 0 then 0 else 1;
    }

    /** `rdp_enable_alpha` (src/rdp.c:501-507): 0, or the combiner alpha bits 0x3F. */
    method EnableAlpha(kind: int)
      requires Valid()
      modifies this
      ensures Valid() && View() == old(View()) && sent == old(sent) && flushes == old(flushes)
      ensures CurrentSettings() == old(CurrentSettings()).(enableAlpha := if kind == 0 then 0 else 0x3F)
    {
      enableAlpha := if kind == 0 then 0 else 0x3F;
    }

    /** `rdp_enable_tlut` (src/rdp.c:510-516). */
    method EnableTlut(kind: int)
      requires Valid()
      modifies this
      ensures Valid() && View() == old(View()) && sent == old(sent) && flushes == old(flushes)
      ensures CurrentSettings() == old(CurrentSettings()).(enableTlut := if kind == 0 then 0 else 1)
    {
      enableTlut := if kind == 0 then 0 else 1;
    }

    /** `rdp_enable_1primitive` (src/rdp.c:519-525). */
    method Enable1Primitive(kind: int)
      requires Valid()
      modifies this
      ensures Valid() && View() == old(View()) && sent == old(sent) && flushes == old(flushes)
      ensures CurrentSettings() == old(CurrentSettings()).(atomicPrim := if kind == 0 then 0 else 1)
    {
      atomicPrim := if kind == 0 then 0 else 1;
    }

    /** `rdp_rgb_dither` (src/rdp.c:529-533): values 0..3 are stored, others ignored. */
    method RgbDither(kind: bv8)
      requires Valid()
      modifies this
      ensures Valid() && View() == old(View()) && sent == old(sent) && flushes == old(flushes)
      ensures CurrentSettings() == old(CurrentSettings()).(rgbDither := if kind < 4 then kind else old(rgbDither))
    {
      if kind < 4 {
        rgbDither := kind;
      }
    }

    /** `rdp_alpha_dither` (src/rdp.c:537-541): values 0..3 are stored, others ignored. */
    method AlphaDither(kind: bv8)
      requires Valid()
      modifies this
      ensures Valid() && View() == old(View()) && sent == old(sent) && flushes == old(flushes)
      ensures CurrentSettings() == old(CurrentSettings()).(alphaDither := if kind < 4 then kind else old(alphaDither))
    {
      if kind < 4 {
        alphaDither := kind;
      }
    }

    /**
     * `rdp_texture_cycle` (src/rdp.c:545-568): 2-cycle mode with a 2-pixel step for a non-zero
     * type, 1-cycle with a 1-pixel step otherwise; then the other-modes and combine commands.
     */
    method TextureCycle(kind: bv8)
      requires Valid()
      modifies this, buffer
      ensures Valid()
      ensures cycleMode == (if kind > 0 then 1 else 0) && pixelMode == (if kind > 0 then 512 else 1024)
      ensures Emitted(old(View()), old(sent),
                      [[OtherModesWord(atomicPrim, cycleMode, enableTlut, enableFilter, rgbDither, alphaDither),
                        0x0040_4040],
                       [0x3C00_0061, 0x082C_01C0 | (enableAlpha as bv32)]])
      ensures flushes == old(flushes)
      ensures CurrentSettings() == old(CurrentSettings()).(cycleMode := cycleMode, pixelMode := pixelMode)
    {
      if kind > 0 {
        cycleMode, pixelMode := 1, 512;
      } else {
        cycleMode, pixelMode := 0, 1024;
      }
      EmitCommands([[OtherModesWord(atomicPrim, cycleMode, enableTlut, enableFilter, rgbDither, alphaDither),
                     0x0040_4040],
                    [0x3C00_0061, 0x082C_01C0 | (enableAlpha as bv32)]]);
    }

    /** `rdp_load_tlut` (src/rdp.c:623-650). */
    method LoadTlut(palBp: u8, palNum: u8, palette: u32)
      requires Valid()
      modifies this, buffer
      ensures Valid()
      ensures Emitted(old(View()), old(sent), TlutCommands(palBp, palNum, palette))
      ensures flushes == old(flushes) && CurrentSettings() == old(CurrentSettings())
    {
      EmitCommands(TlutCommands(palBp, palNum, palette));
    }

    /** Record the write-back of a texture's bytes when flushing is automatic. */
    method RequestFlush(addr: u32, len: int)
      modifies this
      ensures flushes == old(flushes) + (if flushStrategy == FlushAutomatic then [Flush(addr, len)] else [])
      ensures start == old(start) && end == old(end) && sent == old(sent)
      ensures CurrentSettings() == old(CurrentSettings())
    {
      if flushStrategy == FlushAutomatic {
        flushes := flushes + [Flush(addr, len)];
      }
    }

    /**
     * `__rdp_load_texture` (src/rdp.c:675-713): write back the sprite's pixels, send the three
     * load commands and overwrite the whole cache record.
     */
    method LoadTextureDirect(s: Sprite, sh: int, th: int)
      requires Valid()
      modifies this, buffer
      ensures Valid()
      ensures flushes == old(flushes)
        + (if flushStrategy == FlushAutomatic then [Flush(s.data, s.width * s.height * s.bitdepth)] else [])
      ensures Emitted(old(View()), old(sent), LoadTextureCommands(s, sh, th))
      ensures CurrentSettings()
           == old(CurrentSettings()).(cache := LoadedCache(sh, th, s.hslices, s.vslices, s.format))
    {
      RequestFlush(s.data, s.width * s.height * s.bitdepth);
      EmitCommands(LoadTextureCommands(s, sh, th));
      ghost var v, out := View(), sent;
      cache := LoadedCache(sh, th, s.hslices, s.vslices, s.format);
      assert View() == v && sent == out;
    }

    /** `__rdp_load_texpal` (src/rdp.c:716-772): the palettised load; a 4-bit texture flushes half. */
    method LoadTexpal(s: Sprite, sh: int, th: int)
      requires Valid()
      modifies this, buffer
      ensures Valid()
      ensures flushes == old(flushes)
        + (if flushStrategy == FlushAutomatic
           then [Flush(s.data, if s.bitdepth == 0 then (s.width * s.height) / 2 else s.width * s.height)]
           else [])
      ensures Emitted(old(View()), old(sent), LoadTexpalCommands(s, sh, th))
      ensures CurrentSettings()
           == old(CurrentSettings()).(cache := LoadedCache(sh, th, s.hslices, s.vslices, s.format))
    {
      RequestFlush(s.data, if s.bitdepth == 0 then (s.width * s.height) / 2 else s.width * s.height);
      EmitCommands(LoadTexpalCommands(s, sh, th));
      ghost var v, out := View(), sent;
      cache := LoadedCache(sh, th, s.hslices, s.vslices, s.format);
      assert View() == v && sent == out;
    }

    /**
     * `rdp_load_texture` (src/rdp.c:784-792): nothing for a null sprite; otherwise the direct
     * or palettised load of the full sprite, chosen by the TLUT toggle.
     */
    method LoadTexture(sprite: Option<Sprite>)
      requires Valid()
      modifies this, buffer
      ensures Valid()
      ensures sprite.None? ==> View() == old(View()) && sent == old(sent) && flushes == old(flushes)
                                && CurrentSettings() == old(CurrentSettings())
      ensures sprite.Some? ==> Emitted(old(View()), old(sent), SpriteCommands(sprite.value, old(enableTlut)))
      ensures sprite.Some? ==>
        flushes == old(flushes) + (if old(flushStrategy) == FlushAutomatic
                                   then [Flush(sprite.value.data, SpriteFlushLength(sprite.value, old(enableTlut)))]
                                   else [])
      ensures sprite.Some? ==>
        var s := sprite.value;
        CurrentSettings() == old(CurrentSettings()).(cache := LoadedCache(s.width - 1, s.height - 1, s.hslices, s.vslices, s.format))
    {
      if sprite.None? {
        return;
      }
      LoadSprite(sprite.value);
    }

    /** `rdp_load_texture` (src/rdp.c:786-791) for a sprite that is present. */
    method LoadSprite(s: Sprite)
      requires Valid()
      modifies this, buffer
      ensures Valid()
      ensures Emitted(old(View()), old(sent), SpriteCommands(s, old(enableTlut)))
      ensures flushes == old(flushes) + (if old(flushStrategy) == FlushAutomatic
                                         then [Flush(s.data, SpriteFlushLength(s, old(enableTlut)))]
                                         else [])
      ensures CurrentSettings()
           == old(CurrentSettings()).(cache := LoadedCache(s.width - 1, s.height - 1, s.hslices, s.vslices, s.format))
    {
      if enableTlut == 0 {
        SpriteLoadDirect(s, enableTlut);
        LoadTextureDirect(s, s.width - 1, s.height - 1);
      } else {
        SpriteLoadPalette(s, enableTlut);
        LoadTexpal(s, s.width - 1, s.height - 1);
      }
    }

    /** `rdp_load_texbuf` (src/rdp.c:1273-1305): a 16-bit buffer load, no flush, centre point zeroed. */
    method LoadTexbuf(texture: u32, sh: int, th: int)
      requires Valid()
      modifies this, buffer
      ensures Valid()
      ensures flushes == old(flushes)
      ensures Emitted(old(View()), old(sent), LoadTexbufCommands(texture, sh, th))
      ensures CurrentSettings() == old(CurrentSettings()).(cache := LoadedCache(sh, th, 0, 0, 0))
    {
      EmitCommands(LoadTexbufCommands(texture, sh, th));
      cache := LoadedCache(sh, th, 0, 0, 0);
    }

    /**
     * `rdp_draw_textured_rectangle_scaled` at unit scale, i.e. `rdp_draw_textured_rectangle`
     * (src/rdp.c:818-890): nothing, or one four-word command from the cached texture.
     */
    method DrawTexturedRectangle(tx: int, ty: int, bx: int, bY: int, flags: int)
      requires Valid()
      modifies this, buffer
      ensures Valid()
      ensures Emitted(old(View()), old(sent), TexRectCommand(cache, pixelMode, tx, ty, bx, bY, flags))
      ensures flushes == old(flushes) && CurrentSettings() == old(CurrentSettings())
    {
      EmitCommands(TexRectCommand(cache, pixelMode, tx, ty, bx, bY, flags));
    }

    /** `rdp_draw_sprite` (src/rdp.c:905-909): a rectangle the size of the cached texture at (x, y). */
    method DrawSprite(x: int, y: int, flags: int)
      requires Valid()
      modifies this, buffer
      ensures Valid()
      ensures Emitted(old(View()), old(sent),
                      TexRectCommand(cache, pixelMode, x, y, x + cache.width, y + cache.height, flags))
      ensures flushes == old(flushes) && CurrentSettings() == old(CurrentSettings())
    {
      DrawTexturedRectangle(x, y, x + cache.width, y + cache.height, flags);
    }

    /**
     * `rdp_cp_sprite` (src/rdp.c:1123-1173): draw the cached texture around its centre point,
     * offset by the running line, then advance or reset the line.
     */
    method CpSprite(x: int, y: int, flags: int, cpX: int, cpY: int, line: int)
      requires Valid()
      modifies this, buffer
      ensures Valid()
      ensures var r := CpSpriteRect(cache, old(cacheLine), x, y, flags, cpX, cpY);
        Emitted(old(View()), old(sent), TexRectCommand(cache, pixelMode, r.0, r.1, r.2, r.3, flags))
      ensures flushes == old(flushes)
      ensures CurrentSettings()
           == old(CurrentSettings()).(cacheLine := NextCacheLine(cache, old(cacheLine), flags, line))
    {
      var r := CpSpriteRect(cache, cacheLine, x, y, flags, cpX, cpY);
      DrawTexturedRectangle(r.0, r.1, r.2, r.3, flags);
      cacheLine := NextCacheLine(cache, cacheLine, flags, line);
    }

    /** `rdp_draw_filled_rectangle` (src/rdp.c:994-1002). */
    method DrawFilledRectangle(tx: int, ty: int, bx: int, bY: int)
      requires Valid()
      modifies this, buffer
      ensures Valid()
      ensures Emitted(old(View()), old(sent), [FilledRectCommand(tx, ty, bx, bY)])
      ensures flushes == old(flushes) && CurrentSettings() == old(CurrentSettings())
    {
      EmitCommands([FilledRectCommand(tx, ty, bx, bY)]);
    }

    /** `rdp_set_texture_flush` (src/rdp.c:1115-1118). */
    method SetTextureFlush(flush: FlushStrategy)
      requires Valid()
      modifies this
      ensures Valid() && View() == old(View()) && sent == old(sent) && flushes == old(flushes)
      ensures CurrentSettings() == old(CurrentSettings()).(flush := flush)
    {
      flushStrategy := flush;
    }
  }
}
