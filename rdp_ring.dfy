/**
 * The RDP command ring buffer (src/rdp.c:64-75, 110-115, 209-303), as values.
 *
 * The driver owns a 4096-byte array of command words and two byte cursors: `start`, where
 * the command being built begins, and `end`, one past its last word.  Words are appended at
 * `end`; a send hands the bytes [start, end) to the rasterizer and then either advances
 * `start` to `end` or, once `end` has moved into the trailing 1024-byte slack area, resets
 * both cursors to 0 so that the next command starts at the front.
 *
 * `Ring` is the abstract view of that state: the cursors and the words buffer[start/4 ..
 * end/4) of the command in progress.  The class in rdp.dfy keeps the words in an array and
 * is proved to follow the functions here.
 */
module RdpRing {
  import opened Words

  /** RINGBUFFER_SIZE: bytes in the command buffer. */
  const RingSize: nat := 4096
  /** RINGBUFFER_SLACK: bytes at the end of the buffer that trigger a reset on send. */
  const Slack: nat := 1024
  /** Number of word slots in the buffer array. */
  const Slots: nat := RingSize / 4

  datatype Ring = Ring(start: nat, end: nat, pending: seq<Word>)

  /** Cursor invariant: word-aligned, ordered, inside the array, and `start` never in the slack. */
  predicate Inv(r: Ring)
  {
    && r.start % 4 == 0 && r.end % 4 == 0
    && r.start <= r.end <= RingSize
    && r.start <= RingSize - Slack
    && |r.pending| == (r.end - r.start) / 4
  }

  /** No command in progress: the state every send leaves behind. */
  predicate Idle(r: Ring)
  {
    r.start == r.end
  }

  /** `__rdp_ringbuffer_size`: bytes in the command being built. */
  function Size(r: Ring): int
  {
    r.end - r.start
  }

  /** The room check of `__rdp_ringbuffer_queue` exactly as the source writes it. */
  predicate AsWrittenAdmits(r: Ring)
  {
    Size(r) + 4 < RingSize
  }

  /** The room check with the missing bound on the write index added. */
  predicate Admits(r: Ring)
  {
    AsWrittenAdmits(r) && r.end + 4 <= RingSize
  }

  /** `__rdp_ringbuffer_queue` with the as-written room check (the write may leave the array). */
  function AsWrittenQueue(r: Ring, w: Word): Ring
  {
    if AsWrittenAdmits(r) then Ring(r.start, r.end + 4, r.pending + [w]) else r
  }

  /** `__rdp_ringbuffer_queue` with the corrected room check: append `w`, or drop it silently. */
  function Queue(r: Ring, w: Word): (q: Ring)
    ensures Inv(r) ==> Inv(q)
    ensures q.start == r.start
    ensures Admits(r) ==> q == Ring(r.start, r.end + 4, r.pending + [w])
    ensures !Admits(r) ==> q == r
  {
    if Admits(r) then Ring(r.start, r.end + 4, r.pending + [w]) else r
  }

  /**
   * `__rdp_ringbuffer_send`: the words handed to the hardware (none for an empty command)
   * and the cursors afterwards.
   */
  function Send(r: Ring): (res: (Ring, seq<seq<Word>>))
    ensures Inv(r) ==> Inv(res.0)
    ensures Idle(res.0)
    ensures Idle(r) ==> res == (r, [])
    ensures !Idle(r) ==> res.1 == [r.pending]
    ensures !Idle(r) ==> res.0.start == (if r.end > RingSize - Slack then 0 else r.end)
  {
    if Size(r) == 0 then (r, [])
    else if r.end > RingSize - Slack then (Ring(0, 0, []), [r.pending])
    else (Ring(r.end, r.end, []), [r.pending])
  }

  /** Queue every word of `ws` in order. */
  function QueueAll(r: Ring, ws: seq<Word>): Ring
    decreases |ws|
  {
    if ws == [] then r else Queue(QueueAll(r, ws[..|ws| - 1]), ws[|ws| - 1])
  }

  /** Queue the words of one command and send it. */
  function Emit(r: Ring, ws: seq<Word>): (Ring, seq<seq<Word>>)
  {
    Send(QueueAll(r, ws))
  }

  /** Emit several commands one after another; the second component is everything sent. */
  function EmitAll(r: Ring, cmds: seq<seq<Word>>): (Ring, seq<seq<Word>>)
    decreases |cmds|
  {
    if cmds == [] then (r, [])
    else
      var first := Emit(r, cmds[0]);
      var rest := EmitAll(first.0, cmds[1..]);
      (rest.0, first.1 + rest.1)
  }

  /** Emitting one more command extends the run: the fold can be computed front to back. */
  lemma {:induction false} EmitAllSnoc(r: Ring, cmds: seq<seq<Word>>, c: seq<Word>)
    ensures EmitAll(r, cmds + [c]).0 == Emit(EmitAll(r, cmds).0, c).0
    ensures EmitAll(r, cmds + [c]).1 == EmitAll(r, cmds).1 + Emit(EmitAll(r, cmds).0, c).1
    decreases |cmds|
  {
    if cmds == [] {
      assert cmds + [c] == [c] && [c][1..] == [];
    } else {
      var first := Emit(r, cmds[0]);
      var longer := cmds + [c];
      assert longer[0] == cmds[0] && longer[1..] == cmds[1..] + [c];
      EmitAllSnoc(first.0, cmds[1..], c);
      assert EmitAll(r, longer).1 == first.1 + EmitAll(first.0, cmds[1..] + [c]).1;
    }
  }

  /** A run of one command is that command's emit. */
  lemma EmitAllSingle(r: Ring, c: seq<Word>)
    ensures EmitAll(r, [c]) == Emit(r, c)
  {
    assert [c][0] == c && [c][1..] == [];
    assert EmitAll(Emit(r, c).0, []) == (Emit(r, c).0, []);
    assert Emit(r, c).1 + [] == Emit(r, c).1;
  }

  /** The run over the first `k + 1` commands is the run over the first `k` followed by one emit. */
  lemma EmitAllPrefix(r: Ring, cmds: seq<seq<Word>>, k: nat)
    requires k < |cmds|
    ensures EmitAll(r, cmds[..k + 1]).0 == Emit(EmitAll(r, cmds[..k]).0, cmds[k]).0
    ensures EmitAll(r, cmds[..k + 1]).1 == EmitAll(r, cmds[..k]).1 + Emit(EmitAll(r, cmds[..k]).0, cmds[k]).1
  {
    assert cmds[..k + 1] == cmds[..k] + [cmds[k]];
    EmitAllSnoc(r, cmds[..k], cmds[k]);
  }

  /** Every command of a run fits the slack. */
  predicate AllFit(cmds: seq<seq<Word>>)
  {
    forall k :: 0 <= k < |cmds| ==> FitsSlack(cmds[k])
  }

  /** A command that fits the slack: non-empty and at most 1024 bytes. */
  predicate FitsSlack(ws: seq<Word>)
  {
    ws != [] && 4 * |ws| <= Slack
  }

  /** Words queued while the command stays within the slack are all kept, in order. */
  lemma {:induction false} QueueAllWithinSlack(r: Ring, ws: seq<Word>)
    requires Inv(r)
    requires Size(r) + 4 * |ws| <= Slack
    ensures QueueAll(r, ws) == Ring(r.start, r.end + 4 * |ws|, r.pending + ws)
  {
    if ws != [] {
      var init := ws[..|ws| - 1];
      QueueAllWithinSlack(r, init);
      assert init + [ws[|ws| - 1]] == ws;
      assert r.pending + init + [ws[|ws| - 1]] == r.pending + ws;
    }
  }

  /**
   * From an idle buffer, a command that fits the slack is sent whole, exactly as queued, and
   * the cursors end up just past it, or back at 0 once it reached into the slack.
   */
  lemma EmitFromIdle(r: Ring, ws: seq<Word>)
    requires Inv(r) && Idle(r) && FitsSlack(ws)
    ensures var n := r.end + 4 * |ws|;
      Emit(r, ws) == if n > RingSize - Slack then (Ring(0, 0, []), [ws]) else (Ring(n, n, []), [ws])
  {
    QueueAllWithinSlack(r, ws);
    assert r.pending + ws == ws;
  }

  /** From an idle buffer, a run of commands that each fit the slack is sent exactly. */
  lemma {:induction false} EmitAllFromIdle(r: Ring, cmds: seq<seq<Word>>)
    requires Inv(r) && Idle(r)
    requires AllFit(cmds)
    ensures EmitAll(r, cmds).1 == cmds
    ensures Inv(EmitAll(r, cmds).0) && Idle(EmitAll(r, cmds).0)
    decreases |cmds|
  {
    if cmds != [] {
      EmitFromIdle(r, cmds[0]);
      var first := Emit(r, cmds[0]);
      EmitAllFromIdle(first.0, cmds[1..]);
      assert [cmds[0]] + cmds[1..] == cmds;
    }
  }

  /** Mainline use of the transport: append a word, or send the command built so far. */
  datatype Op = Put(w: Word) | Kick

  /** Run a sequence of operations with the corrected room check. */
  function Run(r: Ring, ops: seq<Op>): Ring
    decreases |ops|
  {
    if ops == [] then r
    else match ops[0]
      case Put(w) => Run(Queue(r, w), ops[1..])
      case Kick => Run(Send(r).0, ops[1..])
  }

  /** Run a sequence of operations with the room check as written. */
  function RunAsWritten(r: Ring, ops: seq<Op>): Ring
    decreases |ops|
  {
    if ops == [] then r
    else match ops[0]
      case Put(w) => RunAsWritten(AsWrittenQueue(r, w), ops[1..])
      case Kick => RunAsWritten(Send(r).0, ops[1..])
  }

  /**
   * The discipline the slack comment (src/rdp.c:67-75) relies on: no command grows past the
   * 1024-byte slack, i.e. every word is appended to a command of fewer than 1024 bytes.
   */
  predicate Disciplined(r: Ring, ops: seq<Op>)
    decreases |ops|
  {
    ops == [] ||
    match ops[0]
      case Put(w) => Size(r) + 4 <= Slack && Disciplined(AsWrittenQueue(r, w), ops[1..])
      case Kick => Disciplined(Send(r).0, ops[1..])
  }

  /** Every word the as-written code stores lands inside the 1024-slot array. */
  predicate AsWrittenWritesInBounds(r: Ring, ops: seq<Op>)
    decreases |ops|
  {
    ops == [] ||
    match ops[0]
      case Put(w) =>
        (AsWrittenAdmits(r) ==> r.end / 4 < Slots) && AsWrittenWritesInBounds(AsWrittenQueue(r, w), ops[1..])
      case Kick => AsWrittenWritesInBounds(Send(r).0, ops[1..])
  }

  /**
   * Under the slack discipline the as-written guard is safe: every write index stays below
   * 1024, the cursor invariant holds throughout, and the corrected guard behaves identically.
   */
  lemma {:induction false} SlackKeepsWritesInBounds(r: Ring, ops: seq<Op>)
    requires Inv(r) && Disciplined(r, ops)
    ensures AsWrittenWritesInBounds(r, ops)
    ensures RunAsWritten(r, ops) == Run(r, ops)
    ensures Inv(Run(r, ops))
    decreases |ops|
  {
    if ops != [] {
      match ops[0]
      case Put(w) =>
        assert AsWrittenQueue(r, w) == Queue(r, w);
        SlackKeepsWritesInBounds(Queue(r, w), ops[1..]);
      case Kick =>
        SlackKeepsWritesInBounds(Send(r).0, ops[1..]);
    }
  }

  /** `n` appends of the word 0, with no send in between. */
  function Puts(n: nat): (ops: seq<Op>)
    ensures |ops| == n && forall k :: 0 <= k < n ==> ops[k] == Put(0)
  {
    seq(n, _ => Put(0))
  }

  /** The as-written guard keeps appending until the command holds 4092 bytes. */
  lemma {:induction false} AsWrittenCommandGrows(r: Ring, n: nat)
    requires Size(r) + 4 * n <= RingSize - 4
    ensures RunAsWritten(r, Puts(n)).start == r.start
    ensures RunAsWritten(r, Puts(n)).end == r.end + 4 * n
    decreases n
  {
    if n > 0 {
      assert Puts(n)[1..] == Puts(n - 1);
      AsWrittenCommandGrows(AsWrittenQueue(r, 0), n - 1);
    }
  }

  /**
   * The room check alone does not keep writes in the array: from the reachable idle state
   * with both cursors at 3072, a command of 257 words passes the check on every word, and
   * the 257th is stored at index 1024, one past the array; the command can grow to 4092 bytes.
   */
  lemma AsWrittenGuardOverflows()
    ensures Inv(Ring(3072, 3072, [])) && Idle(Ring(3072, 3072, []))
    ensures !AsWrittenWritesInBounds(Ring(3072, 3072, []), Puts(257))
    ensures RunAsWritten(Ring(3072, 3072, []), Puts(1023)).end == 3072 + 4092
    ensures !AsWrittenAdmits(RunAsWritten(Ring(3072, 3072, []), Puts(1023)))
  {
    var r0 := Ring(3072, 3072, []);
    AsWrittenCommandGrows(r0, 1023);
    OverflowAt(r0, 256, 257);
  }

  /** After `k` in-bounds appends from `r`, the remaining appends of `Puts(n)` overflow at once. */
  lemma {:induction false} OverflowAt(r: Ring, k: nat, n: nat)
    requires k < n && r.end + 4 * k == RingSize && Size(r) + 4 * k + 4 < RingSize
    ensures !AsWrittenWritesInBounds(r, Puts(n))
    decreases k
  {
    assert Puts(n)[1..] == Puts(n - 1);
    if k > 0 {
      OverflowAt(AsWrittenQueue(r, 0), k - 1, n - 1);
    }
  }
}
