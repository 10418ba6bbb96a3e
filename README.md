# libdragon RDP command builder and RSP job scheduler, in Dafny

This project models two parts of the Nintendo 64 library, each as pure functions and as a
class that changes state in place:

- the command-building half of the rasterizer (RDP) driver in `src/rdp.c`;
- the job scheduler of the vector coprocessor (RSP) in `src/rsp.c`.

Properties of both are proved.

**RDP driver.**
- **Commands and the ring buffer.** The driver builds each command in a 4096-byte ring buffer of
  32-bit words. Two byte cursors track it: `rdp_start` and `rdp_end`. `__rdp_ringbuffer_queue`
  appends a word or silently drops it.
- **Send.** `__rdp_ringbuffer_send` hands `[start, end)` to the rasterizer. It then advances
  `start`, or resets both cursors to 0 once `end` has moved into the trailing 1024-byte slack.
- **Encoders.** Thin encoders build commands on top of the buffer: sync, clipping, mode words,
  filled and textured rectangles, texture and palette loads, and centre-point sprites.
- **Texture cache.** The texture loads overwrite a single-slot texture-cache record. The
  rectangle draws read it to clip, offset and mirror the texture coordinates.

**RSP scheduler.**
- **Job queue.** The scheduler keeps an intrusive doubly linked queue of `job_t` records, edited
  with `ADD_TAIL`, `REMOVE_HEAD` and `REMOVE_NODE`.
- **Job states.** Jobs move through IDLE, QUEUED, RUNNING and FINISHED. The moves are made by
  `rsp_queue_job`, the break interrupt `__rsp_interrupt` and `rsp_abort_job`.
- **Other operations.** `rsp_new_job` builds a job record. `rsp_lib_fn` looks up an entry vector
  in the table at the start of instruction memory.

Modules:

- `Words` (words.dfy): machine integers. It has 32-bit words as `bv32` and explicit truncation to
  `uint8_t`, `uint16_t`, `uint32_t` and `int16_t`.
- `RdpRing` (rdp_ring.dfy): the ring buffer as a value `Ring(start, end, pending)`, with queue and
  send as functions. The back-to-back sending of whole commands is proved correct. The
  room check is examined (see Findings).
- `RdpEncode` (rdp_encode.dfy): the power-of-two tables and the word packing of every command, each
  with read-back lemmas. It also covers the texture-cache record and the unit-scale
  textured-rectangle plan (clipping, S/T offset and mirroring), and the centre-point sprite
  placement.
- `Rdp` (rdp.dfy): class `Driver`.
  - It has the buffer as an `array`, the cursors, the driver-wide settings and a log `sent` of
    the commands handed to the rasterizer.
  - Every method is proved to leave the buffer as `RdpRing` says and to send exactly the
    commands `RdpEncode` builds.
- `RspQueue` (rsp_queue.dfy): the job records as an arena indexed by handle, and the three list
  primitives as functions.
  - The FIFO reading of a queue is the predicate `Linked`. It is used to show what `ADD_TAIL`
    breaks and what `REMOVE_HEAD`/`REMOVE_NODE` keep.
  - `ADD_TAIL` is modelled as the code has it: it never sets `head` and never links the old
    tail's `next`.
- `RspEncode` (rsp_encode.dfy): the SP DMA register words, SP memory as 8 KiB of bytes read
  big-endian, the argument copy, and the module-table search of `rsp_lib_fn`.
- `RspSched` (rsp_sched.dfy): the scheduler state and one step function per entry point. It proves
  the job-state properties and the invariant that only the head can be RUNNING, which implies at
  most one RUNNING job.
- `Rsp` (rsp.dfy): class `Scheduler`, which updates the queue, the job records, the status bits,
  the PC and SP memory in place. Each method is proved equal to its step function.

Where the code and its own comments disagree, the model follows the code.
- **Job start.** The file comment of `src/rsp.c` (lines 20-21) says module functions are queued
  and run as the RSP finishes the previously queued ones, as a FIFO queue. Because `ADD_TAIL`
  never sets `head`, a queue emptied by `rsp_init`, `rsp_close` or `rsp_load_lib` never gets
  one, and no job is ever started (`NoJobEverStarts`).
- **Abort of a QUEUED job.** `rsp_abort_job` sets halt, unlinks the job and clears halt again only
  when the status read beforehand had neither halt nor broke set (`(s & 3) == 0`). So aborting a
  QUEUED job on a halted RSP leaves it halted, and the new head is not resumed (`AbortQueued`).

## Model

Definitions whose only contract is implied by the lemmas about them reach this table through
those lemma rows. These definitions are:
- `RdpRing.AsWrittenQueue` (the room check as written), through `AsWrittenCommandGrows`,
  `AsWrittenGuardOverflows`, `OverflowAt` and `SlackKeepsWritesInBounds`;
- the command builders `RdpEncode.ClipCommand`, `FilledRectCommand`, `OtherModesWord`,
  `TextureCopyWord`, `TlutWord` and `TileMaskWord`, through their `...Decodes` lemmas and the
  `Rdp.Driver` methods that send them;
- `TexRectCommand`, through `TexRectPlan`, `TexRectWords` and `TexRectRules`;
- `TileExtentWord`, through the load-command rows;
- `RspEncode.LibFnSpec`, through `LibFnNotFound`, `LibFnFirstMatch` and `Rsp.Scheduler.LibFn`.

| member | source | states |
|---|---|---|
| RdpRing.Queue | src/rdp.c:226-234 | with the corrected room check (see Findings; `AsWrittenQueue` is the check as written): when the check admits it, the word is appended and `end` advances by 4, otherwise the state is unchanged; `start` never moves; the cursor invariant (aligned, ordered, inside the array, `start` outside the slack) is preserved |
| RdpRing.Send | src/rdp.c:251-296 | an empty command sends nothing and changes nothing; otherwise exactly the pending words are sent and afterwards `start == end`, both 0 when `end` passed 3072 and both `end` otherwise; the invariant is preserved |
| RdpRing.QueueAllWithinSlack | src/rdp.c:226-234 | words queued while the command stays within 1024 bytes are all kept, in order, and `end` advances by four bytes each |
| RdpRing.EmitFromIdle | src/rdp.c:226-296 | from an idle buffer a command of at most 1024 bytes is sent whole; the cursors end just past it, or at 0 when it reached into the slack |
| RdpRing.EmitAllFromIdle | src/rdp.c:67-75 | from an idle buffer, a run of commands each within the slack is sent exactly as built, one entry per command, and the buffer ends idle |
| RdpRing.SlackKeepsWritesInBounds | src/rdp.c:67-75 | when no command grows past the slack, every index the as-written queue stores at is below 1024, the as-written and corrected room checks behave identically, and the cursor invariant holds |
| RdpRing.AsWrittenCommandGrows | src/rdp.c:229-233 | the as-written room check keeps accepting words until the command holds 4092 bytes, whatever `start` is |
| RdpRing.AsWrittenGuardOverflows | src/rdp.c:229-233 | from the reachable idle state `start = end = 3072`, the 257th word of one command passes the room check and is stored at index 1024, outside the array; the command can grow to 4092 bytes |
| RdpRing.OverflowAt | src/rdp.c:229-232 | once `end` reaches 4096 with room left by the size check, the next queued word is stored outside the array |
| RdpEncode.RoundToPower | src/rdp.c:166-177 | the result is one of 4..256, covers `n` when `n <= 128`, and is 256 for anything larger |
| RdpEncode.Log2 | src/rdp.c:187-207 | the result lies between 2 and 8 |
| RdpEncode.RoundToPowerIsLeastCover | src/rdp.c:166-177 | the rounding is at most any power 4..128 that covers `n`, so it is the least supported cover |
| RdpEncode.Log2OfPower | src/rdp.c:187-207 | `log2(2^k) == k` for k = 2..7 |
| RdpEncode.Log2Default | src/rdp.c:187-207 | any value that is not a power 4..128 maps to 8 |
| RdpEncode.Log2InvertsRound | src/rdp.c:166-207 | `1 << log2(round(n)) == round(n)` for every `n` |
| RdpEncode.ScreenPairDecodes | src/rdp.c:435-436 | an on-screen point packed as `x << 14 \| y << 2` leaves the opcode byte clear and both coordinates can be read back |
| RdpEncode.OpPairDecodes | src/rdp.c:435 | an opcode OR-ed over an on-screen point can be read back together with both coordinates |
| RdpEncode.SyncOpcode | src/rdp.c:401-415 | each barrier opcode has zero low 24 bits |
| RdpEncode.SyncOpcodesDistinct | src/rdp.c:401-415 | the four barriers have four different opcodes |
| RdpEncode.ClipCommandDecodes | src/rdp.c:432-438 | the clipping command carries opcode 0xED and all four on-screen corner coordinates |
| RdpEncode.ClampToScreen | src/rdp.c:996-997 | a negative top-left coordinate becomes 0, any other is kept |
| RdpEncode.OtherModesDecodes | src/rdp.c:560 | with each toggle in range, the other-modes word carries opcode 0x2F and each toggle in its own field |
| RdpEncode.TextureCopyDecodes | src/rdp.c:483 | the copy-mode word carries opcode 0xEF and the atomic-primitive and TLUT bits |
| RdpEncode.TlutColorCount | src/rdp.c:625-634 | 255 for an 8-bit palette; `(pal_num << 6) - 1` truncated to a byte for a 4-bit one with 0 < pal_num < 16; 15 otherwise |
| RdpEncode.TlutCommands | src/rdp.c:636-649 | three two-word commands: the palette address, tile 7 set up and loaded with the colour count in bits 12-19 |
| RdpEncode.TlutWordDecodes | src/rdp.c:648 | the load-TLUT word carries tile 7 and the colour count |
| RdpEncode.LoadedCache | src/rdp.c:689-712 | every field of the cache record is written: last texel indices truncated to 16 bits, footprints rounded to powers of two from `sh + 1`/`th + 1`, and the centre point and trim as given |
| RdpEncode.LoadedFootprintCovers | src/rdp.c:689-692 | for a loaded sprite 1..128 texels wide the footprint covers the width, is the least supported power covering it and is inverted by the log2 table |
| RdpEncode.Log2Word | src/rdp.c:691-692 | the 32-bit log2 value fits the 4-bit mask field and equals the table's log2 |
| RdpEncode.LoadTextureCommands | src/rdp.c:684-705 | three two-word commands: texture image, tile setup and load tile |
| RdpEncode.LoadTexpalCommands | src/rdp.c:716-764 | four two-word commands, texture image, tile, load, tile |
| RdpEncode.LoadTexbufCommands | src/rdp.c:1276-1297 | three two-word commands: texture image, tile setup and load tile |
| RdpEncode.TileMaskDecodes | src/rdp.c:699 | the mask word carries log2 of both dimensions of the footprint, and `1 << field` gives the footprint back |
| RdpEncode.TexRectPlan | src/rdp.c:818-853 | nothing is drawn exactly when `tx` lies left of `-cache.width` or `ty` above `-cache.height` |
| RdpEncode.TexRectRules | src/rdp.c:823-853 | the origin is clamped to 0; S (T) gains `(-tx) << 5` (`(-ty) << 5`) and, when mirroring that axis (flags 1, 3 for S; 2, 3 for T), the mirror term, with 16-bit wrap-around; the bottom-right corner moves by one pixel exactly when `pixel_mode == 1024` |
| RdpEncode.ClippedTexelsStayAligned | src/rdp.c:823-829 | unmirrored and without S wrap-around, clipping keeps the texel drawn at each screen column equal to the unclipped one |
| RdpEncode.ClippedSpriteScenario | src/rdp.c:823-857 | a 32x32 sprite drawn at (-10, 5) is clamped to x = 0 with S advanced by 10 texels and its T side untouched |
| RdpEncode.StPairDecodes | src/rdp.c:860-861 | S and T can be read back from their halves of the S:T word |
| RdpEncode.TexRectWords | src/rdp.c:855-861 | the textured-rectangle command is four words |
| RdpEncode.TexRectOpcode | src/rdp.c:856 | with an on-screen bottom-right corner the first word carries opcode 0x24 and that corner |
| RdpEncode.CpSpriteRect | src/rdp.c:1125-1166 | the rectangle spans the cached texture and puts the centre point (cached when both given coordinates are 0, always minus `cp_start`) at `(x, y + cache_line)`, measured from the left or, mirrored in X, from the right edge, and from the top or, mirrored in Y, from the bottom edge |
| RdpEncode.CpSpriteOrientationAgrees | src/rdp.c:1140-1164 | for flags 0..3 the placement mirrors exactly the axes the textured rectangle mirrors; for a negative value they disagree in X |
| RdpEncode.NextCacheLine | src/rdp.c:1154-1172 | `cache_line` resets to 0 for `line <= 0`, else moves by `cache.height + 1` down for flags <= 1 and up otherwise, with int16 wrap-around |
| Rdp.Driver.constructor | src/rdp.c:111-142 | the static initial state: empty idle buffer, nothing sent, automatic flushing, zeroed cache, `pixel_mode` 4096, `cache_line` 0, atomic primitives on, both dither modes 3 (disabled), the other toggles 0 |
| Rdp.Driver.Queue | src/rdp.c:226-241 | with the corrected room check (see Findings; `RdpRing.AsWrittenQueue` is the check as written): the cursors follow `RdpRing.Queue`; an accepted word is stored in the one slot at `end` and no other slot changes; a dropped word changes nothing |
| Rdp.Driver.Send | src/rdp.c:251-303 | the cursors and the sent log follow `RdpRing.Send`; afterwards `start == end` |
| Rdp.Driver.QueueWords | src/rdp.c:226-234 | queueing a command's words one by one leaves the buffer as `RdpRing.QueueAll` says |
| Rdp.Driver.EmitCommand | src/rdp.c:226-296 | queueing one command's words and sending it leaves the buffer and the sent log as `RdpRing.Emit` says; the settings and write-backs are unchanged |
| Rdp.Driver.EmitCommands | src/rdp.c:226-296 | queueing and sending commands one after another follows `RdpRing.EmitAll`; from an idle buffer, commands within the slack are sent exactly |
| Rdp.Driver.Init | src/rdp.c:308-325 | afterwards `start == end == 8`, the one command `[0x3A000000, 0xFFFFFFFF]` has been sent and flushing is automatic |
| Rdp.Driver.Sync | src/rdp.c:399-418 | queues and sends the one command `[opcode of the kind, 0]`, ring and log following `RdpRing.EmitAll`; no setting changes |
| Rdp.Driver.SetClipping | src/rdp.c:432-438 | queues and sends the clipping command, ring and log following `RdpRing.EmitAll`; no setting changes |
| Rdp.Driver.EnablePrimitiveFill | src/rdp.c:454-460 | queues and sends `[0xEFB000FF, 0x00004000]`; no setting changes |
| Rdp.Driver.EnableBlendFill | src/rdp.c:467-472 | queues and sends `[0xEF0000FF, 0x80000000]`; no setting changes |
| Rdp.Driver.EnableTextureCopy | src/rdp.c:480-489 | queues and sends the copy-mode command built from the current atomic-primitive and TLUT toggles with the 4-pixel step, then sets `pixel_mode` to 4096 and changes no other setting |
| Rdp.Driver.EnableFilter | src/rdp.c:492-498 | stores 0 for 0 and 1 for anything else; nothing else changes |
| Rdp.Driver.EnableAlpha | src/rdp.c:501-507 | stores 0 for 0 and 0x3F for anything else; nothing else changes |
| Rdp.Driver.EnableTlut | src/rdp.c:510-516 | stores 0 for 0 and 1 for anything else; nothing else changes |
| Rdp.Driver.Enable1Primitive | src/rdp.c:519-525 | stores 0 for 0 and 1 for anything else; nothing else changes |
| Rdp.Driver.RgbDither | src/rdp.c:529-533 | stores values below 4 and ignores the rest |
| Rdp.Driver.AlphaDither | src/rdp.c:537-541 | stores values below 4 and ignores the rest |
| Rdp.Driver.TextureCycle | src/rdp.c:545-568 | a non-zero type picks 2-cycle mode with `pixel_mode` 512, zero 1-cycle with 1024; then the other-modes command built from the new settings and the combine command with the alpha bits are sent; no other setting changes |
| Rdp.Driver.LoadTlut | src/rdp.c:623-650 | queues and sends the three palette-load commands of `TlutCommands`; no setting changes |
| Rdp.Driver.RequestFlush | src/rdp.c:678-681 | a write-back is recorded exactly when the flush strategy is automatic |
| Rdp.Driver.LoadTextureDirect | src/rdp.c:675-713 | writes back `width*height*bitdepth` bytes when automatic, sends the three load commands and overwrites the whole cache record |
| Rdp.Driver.LoadTexpal | src/rdp.c:716-772 | writes back `width*height` bytes (half for 4-bit) when automatic, sends the four palettised load commands and overwrites the whole cache record |
| Rdp.Driver.LoadTexture | src/rdp.c:784-792 | a null sprite changes nothing; otherwise the full sprite is loaded directly or palettised by the TLUT toggle and the cache holds its record |
| Rdp.Driver.LoadSprite | src/rdp.c:788-791 | for a present sprite: the commands of the direct load when the TLUT toggle is 0 and of the palettised load otherwise, the write-back of the matching length under automatic flushing, and the cache record of the whole sprite |
| Rdp.Driver.LoadTexbuf | src/rdp.c:1273-1305 | sends the three 16-bit load commands without a write-back and overwrites the cache with a zero centre point and trim |
| Rdp.Driver.DrawTexturedRectangle | src/rdp.c:818-890 | sends the unit-scale textured rectangle planned from the current cache and pixel mode, or nothing when it lies off screen; no setting changes |
| Rdp.Driver.DrawSprite | src/rdp.c:905-909 | draws a rectangle the size of the cached texture at (x, y) |
| Rdp.Driver.CpSprite | src/rdp.c:1123-1173 | draws the centre-point rectangle offset by the old `cache_line`, then updates `cache_line` as `NextCacheLine` says |
| Rdp.Driver.DrawFilledRectangle | src/rdp.c:994-1002 | queues and sends the filled-rectangle command, top-left clamped to the screen; no setting changes |
| Rdp.Driver.SetTextureFlush | src/rdp.c:1115-1118 | stores the strategy; nothing else changes |
| RspEncode.DmaOffsetWord | src/rsp.c:154 | SP_MEM_ADDR is the offset modulo 8 KiB, the offset itself when inside SP memory |
| RspEncode.DmaLengthWord | src/rsp.c:158 | SP_RD_LEN is one less than a length of 1..4096 and 0xFFF for 0 |
| RspEncode.BlkFieldsDecode | src/rsp.c:204 | each of row skip, row count and row bytes can be read back when it fits its field |
| RspEncode.CopyArgs | src/rsp.c:296 | the argument copy changes no byte outside the top 64 bytes of DMEM |
| RspEncode.CopyArgsReadsBack | src/rsp.c:296 | reading the copied area back as big-endian words yields the job's sixteen arguments |
| RspEncode.ScanSkips | src/rsp.c:395-400 | skipping entries already rejected does not change the search result |
| RspEncode.FindModuleFrom | src/rsp.c:395-402 | the search from an even position returns a matching present entry with all earlier entries rejected, or there is a zero terminator before any match |
| RspEncode.FindModuleIsFirstMatch | src/rsp.c:395-402 | the search yields the first present entry naming the module, and nothing exactly when the terminator comes first |
| RspEncode.LibFnNotFound | src/rsp.c:401-402 | the lookup returns 0 when the table ends before any entry names the module |
| RspEncode.LibFnFirstMatch | src/rsp.c:404-405 | otherwise it returns word `fn` of the function table of the first matching entry |
| RspQueue.AddTail | src/rsp.c:43-48 | `j` gets no successor, the old tail as predecessor and becomes the tail; `head` and every other record, the old tail's `next` included, are untouched |
| RspQueue.RemoveHead | src/rsp.c:55-71 | returns the old head; its successor becomes the head and gets a null `prev`, and no other record changes; an empty queue gets both ends cleared; `tail` is otherwise kept |
| RspQueue.RemoveNode | src/rsp.c:76-95 | only links change, and only in the records of `j`'s neighbours; the queue stays well formed |
| RspQueue.AddTailBreaksFifo | src/rsp.c:43-48 | appending to a FIFO never yields the FIFO with `j` at the end: an empty queue keeps a null head, otherwise the old tail's `next` stays null |
| RspQueue.AddTailExtendsBackChain | src/rsp.c:43-48 | what ADD_TAIL does keep: the backward chain from `tail` gains `j` at its end |
| RspQueue.RemoveHeadOfLinked | src/rsp.c:55-71 | on a FIFO the first record is returned and the rest stays a FIFO; removing the last record leaves `tail` pointing at it |
| RspQueue.RemoveHeadOfEmpty | src/rsp.c:65-68 | on an empty queue both ends are cleared and nothing is returned |
| RspQueue.LinkedCanRemove | src/rsp.c:76-95 | every record of a FIFO can be unlinked without a null dereference |
| RspQueue.RemoveNodeKeepsOrder | src/rsp.c:76-95 | unlinking any record of a FIFO of two or more leaves exactly the other records, in their order |
| RspQueue.FirstRelinked | src/rsp.c:78-83 | the head case relinks the rest of the FIFO |
| RspQueue.LastRelinked | src/rsp.c:84-89 | the tail case relinks the rest of the FIFO |
| RspQueue.InnerRelinked | src/rsp.c:90-94 | the middle case's two pointer updates relink the FIFO around the record |
| RspQueue.RemoveNodeOfSingle | src/rsp.c:78-83 | unlinking the only record clears `head` but leaves `tail` pointing at it |
| RspQueue.AddTwiceThenRemoveFirstDereferencesNull | src/rsp.c:43-95 | queueing two jobs on an empty queue and unlinking the first reaches the middle case with a null `next` |
| RspSched.StartHeadStep | src/rsp.c:293-302 | starting the head keeps the scheduler well formed and leaves the head, broke bit and callback log alone |
| RspSched.StartHeadStarts | src/rsp.c:293-302 | a startable head becomes RUNNING at its entry vector with halt cleared and its arguments readable from DMEM; no other record changes |
| RspSched.StartHeadRunsOnlyHead | src/rsp.c:293-302 | starting makes no job RUNNING but the head |
| RspSched.StartHeadKeepsInvariant | src/rsp.c:293-302 | starting keeps "only the head is RUNNING" |
| RspSched.QueueJobStep | src/rsp.c:414-442 | queueing keeps the scheduler well formed |
| RspSched.QueueJobEffect | src/rsp.c:414-442 | the job becomes QUEUED; when the RSP is stopped and the head is startable the head starts with its arguments; otherwise PC, halt and memory are unchanged; no other job's state changes and the head pointer is never moved |
| RspSched.QueueJobKeepsInvariant | src/rsp.c:414-442 | queueing keeps "only the head is RUNNING" |
| RspSched.InterruptStep | src/rsp.c:274-305 | the interrupt keeps the scheduler well formed |
| RspSched.RetireStep | src/rsp.c:284-291 | retiring keeps the scheduler well formed |
| RspSched.InterruptRetiresHead | src/rsp.c:283-291 | the head's callback (if any) runs once and sees it FINISHED, no other callback runs, its successor becomes the head and the old head ends IDLE unless it is its own successor |
| RspSched.InterruptOnEmpty | src/rsp.c:281-283 | with nothing queued the interrupt only halts, clears broke and clears `tail` |
| RspSched.InterruptStartsNext | src/rsp.c:293-302 | a startable new head becomes RUNNING at its entry vector; otherwise the RSP stays halted with PC and memory unchanged |
| RspSched.InterruptKeepsInvariant | src/rsp.c:274-305 | the interrupt keeps "only the head is RUNNING" |
| RspSched.AbortJobStep | src/rsp.c:478-526 | aborting keeps the scheduler well formed |
| RspSched.AbortUnlinkStep | src/rsp.c:484-522 | unlinking keeps the scheduler well formed |
| RspSched.AbortEndsIdle | src/rsp.c:525 | the aborted job always ends IDLE |
| RspSched.AbortQueued | src/rsp.c:487-494 | a QUEUED job is unlinked and made IDLE; other jobs' states, callbacks, PC and memory are unchanged; the RSP ends halted exactly when it was stopped before |
| RspSched.AbortRunning | src/rsp.c:495-515 | the RUNNING job is removed as head without its callback and a startable next head is started; otherwise the RSP stays halted |
| RspSched.AbortInactive | src/rsp.c:516-521 | an IDLE or FINISHED job only becomes IDLE, and halt is restored to whether the RSP was stopped |
| RspSched.AbortKeepsInvariant | src/rsp.c:478-526 | aborting keeps "only the head is RUNNING" |
| RspSched.AbortUnlinkKeepsInvariant | src/rsp.c:484-522 | after unlinking, a RUNNING job other than the aborted one is the head |
| RspSched.NoJobEverStarts | src/rsp.c:43-48 | from an empty queue, queueing, the interrupt and aborting all keep the head null, no job RUNNING and the PC unchanged |
| Rsp.JobArgs | src/rsp.c:551-556 | sixteen words: the first `count` are the supplied arguments, the rest 0 |
| Rsp.Scheduler.constructor | src/rsp.c:311-326 | halted, broke cleared and an empty queue |
| Rsp.Scheduler.Close | src/rsp.c:331-345 | halts, clears broke and empties the queue; the records stay |
| Rsp.Scheduler.LoadLib | src/rsp.c:356-377 | halts, empties the queue, programs two 4 KiB DMA reads to DMEM and IMEM and SP memory then holds the library |
| Rsp.Scheduler.AddTail | src/rsp.c:43-48 | the in-place update equals `RspQueue.AddTail` |
| Rsp.Scheduler.RemoveHead | src/rsp.c:55-71 | the in-place update and result equal `RspQueue.RemoveHead` |
| Rsp.Scheduler.RemoveNode | src/rsp.c:76-95 | the in-place update equals `RspQueue.RemoveNode` |
| Rsp.Scheduler.StartHead | src/rsp.c:293-302 | the in-place start equals `RspSched.StartHeadStep` |
| Rsp.Scheduler.QueueJob | src/rsp.c:414-442 | the new state is `QueueJobStep` of the old one and "only the head is RUNNING" is kept |
| Rsp.Scheduler.Interrupt | src/rsp.c:274-305 | the new state is `InterruptStep` of the old one and the invariant is kept |
| Rsp.Scheduler.Retire | src/rsp.c:284-291 | the new state is `RetireStep` of the old one |
| Rsp.Scheduler.AbortJob | src/rsp.c:478-526 | the new state is `AbortJobStep` of the old one and the invariant is kept |
| Rsp.Scheduler.AbortUnlink | src/rsp.c:484-522 | the new state is `AbortUnlinkStep` of the old one |
| Rsp.Scheduler.NewJob | src/rsp.c:542-561 | a failed allocation yields null and changes nothing; otherwise a new unlinked IDLE record with `fn`, `cb` and zero-padded arguments is appended and nothing else changes |
| Rsp.Scheduler.LibFn | src/rsp.c:389-406 | for a module name that is a C string, the loop returns `LibFnSpec`: 0 when no module matches, else `f[fn]` of the first match |

## Left out

- Memory-mapped registers and busy waits are not modelled. These are the DP status and DMA
  registers and their poll loops (src/rdp.c:260-278), `__rsp_wait_dma`, `__rsp_lock` and
  `__rsp_unlock`. The DMA kick becomes the `sent` log, and the SP register writes become the
  `dma` log and the `halt`, `broke` and `pc` fields.
- `rsp_do_job` and `rsp_wait_job` are only busy waits on a job's state, which only the interrupt
  changes. They are left out.
- Interrupt masking and concurrency are not modelled. `__rsp_interrupt` is a method the
  environment may call between mainline calls, and each entry point is atomic.
- Cache write-back is not modelled as hardware. A texture load's `data_cache_hit_writeback` is a
  ghost `flushes` entry. The write-back of the command words before each send (src/rdp.c:257) is
  not recorded.
- Floating point is not modelled. This covers `rdp_draw_filled_triangle`,
  `rdp_draw_sprite_scaled`, `rdp_cp_sprite_scaled` and non-unit scales in
  `rdp_draw_textured_rectangle_scaled`. Only the unit-scale path is modelled, where every factor
  is exactly 1.0. `extra_line` is used only by `rdp_cp_sprite_scaled` and is dropped with it.
- The framebuffer functions are not modelled: `get_pixel`, `rdp_buffer_copy`,
  `rdp_buffer_screen`, `rdp_attach_display` and `rdp_set_default_clipping`. They depend on
  display state from code that is not part of this model.
- `rdp_detach_display` is one `rdp_sync(SYNC_FULL)` (modelled as `Rdp.Driver.Sync`) followed by a
  busy wait on the interrupt flag `wait_intr`. The wait and the DP interrupt handler that sets the
  flag are busy waiting and interrupt handling, and are left out.
- The other fixed-word emitters follow the same queue-and-send pattern and are not modelled:
  - `rdp_additive_blending`, `rdp_intensify`, `rdp_color`, `rdp_noise`;
  - `rdp_rgba_scale`, `rdp_set_primitive_color`, `rdp_set_blend_color`.
- `rdp_triangle_setup` queues nothing. It only chooses the triangle-mode word `tri_set`, which
  only the floating-point `rdp_draw_filled_triangle` reads, so it is left out with that function.
- `rdp_close` queues nothing. It only disables and unregisters the DP interrupt, and interrupt
  handling is not modelled.
- `sprite_cache.s` and `.t` are dropped, because the code never reads or writes them.
- `rsp_dispose_job` (`free`), `__rsp_dma_write` and `__rsp_blk_write` are not modelled. An
  allocation appends a record to the arena, and nothing is ever freed.
- Callback bodies are not modelled. Each call is recorded in `calls` with the state the job had
  when it ran, and a callback is assumed not to call back into the scheduler.
- The status register is reduced to the two bits the driver tests: halt (bit 0) and broke
  (bit 1). The interrupt-enable, single-step and signal bits are not modelled.
- The RSP's own status changes are not modelled. A running program hitting a break sets halt and
  broke itself, and that transition is not an operation of `Rsp.Scheduler`, whose methods only
  ever clear `broke`. So in every reachable state of the class `broke` is false. The `RspSched`
  step lemmas hold for any status, broke set or not.
- SP memory is the 8 KiB at 0xA4000000. A read outside it returns 0, including a function index
  past the table in `rsp_lib_fn`, which C does not check. In C such a read would see whatever
  memory lies there.
- Rsp.Scheduler.AbortJob, Rsp.Scheduler.AbortUnlink, RspSched.AbortJobStep,
  RspSched.AbortUnlinkStep, Rsp.Scheduler.RemoveNode and RspQueue.RemoveNode: they require that
  unlinking a job will not dereference a null neighbour (`CanAbort`, and `CanRemoveNode` behind
  it). In C that case crashes, and `AddTwiceThenRemoveFirstDereferencesNull`
  shows that it is reachable. The crash itself is not modelled.
- RspEncode.BlkWord has no contract of its own. Its three fields read back by `BlkFieldsDecode`
  when each fits. Overflow of `(pitch-width)*bpp` into the neighbouring field is left as
  32-bit arithmetic, as in C.
- RdpEncode.LoadTextureCommands, RdpEncode.LoadTexpalCommands and
  RdpEncode.LoadTexbufCommands: their contracts state only the number and length of the
  commands. The words themselves are defined by the functions, the footprint by `LoadedCache`,
  and the mask field by `TileMaskDecodes`.
- RspSched.StartHeadStep, RspSched.QueueJobStep, RspSched.InterruptStep, RspSched.RetireStep,
  RspSched.AbortJobStep and RspSched.AbortUnlinkStep: their own contracts state only
  well-formedness. Their effects are stated by the lemmas beside them.
- RdpEncode.CpSpriteRect, Rdp.Driver.DrawSprite and RdpEncode.TexRectPlan: positions are
  unbounded integers. The C `int` arithmetic on `x`, `y`, `cache_line`, `x + cache.width` and
  `y + cache.height` (src/rdp.c:908) and on the rectangle corners is assumed not to overflow.
- The mode toggles, dither modes and alpha bits are fields of subset types holding only the
  values the setters store.
- Rsp.Scheduler.NewJob: requires `count <= 16` and that `count` arguments are supplied. C does not check the first, and a larger count writes past `args`.
- `rdp_command` and `rdp_send` are the same operations as `Rdp.Driver.Queue` and
  `Rdp.Driver.Send`.

## Findings

| source | as written | input that shows it | evidently intended | confidence | as-written member | corrected member |
|---|---|---|---|---|---|---|
| src/rdp.c:229 | the room check bounds only the size of the command in progress (`end - start + 4 < 4096`), not the write index `end / 4` used at src/rdp.c:232 | idle buffer with `start = end = 3072` (reached after sends that end before the slack mark), then one command of 257 or more words: the 257th word is written to `rdp_ringbuffer[1024]`, one past the array | a word is stored only while the write index stays inside the 1024-word array; otherwise it is dropped like an oversized command | not executed; high for commands longer than the 1024-byte slack, none for the driver's own two-word commands | RdpRing.AsWrittenGuardOverflows | RdpRing.Queue |
