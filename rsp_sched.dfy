/**
 * The RSP job scheduler of src/rsp.c as a function of its state: the job queue, the two
 * status bits the driver tests (`halt` = bit 0, `broke` = bit 1), the program counter, SP
 * memory and the log of job callbacks.  Each public entry point (queueing a job, the
 * break interrupt, aborting a job) is a step function here; the class in rsp.dfy performs
 * the same steps in place and is proved equal to them.
 *
 * Status writes, as the driver uses them: 0x8E sets halt and clears broke, 0xAAAB21 clears
 * halt (broke is untouched), 2 sets halt and 1 clears it.
 */
module RspSched {
  import opened Words
  import opened RspQueue
  import opened RspEncode

  /** One invocation `cb(j)` of a job callback, with the state `j` had when it ran. */
  datatype Callback = Callback(job: nat, cb: nat, seen: JobState)

  datatype Sched = Sched(q: JobQueue, halt: bool, broke: bool, pc: Word, mem: seq<byte>,
                         calls: seq<Callback>)

  /** Well-formed: pointers in the arena, SP memory of its real size, sixteen arguments a job. */
  predicate Ok(s: Sched)
  {
    && Wf(s.q) && |s.mem| == SpMemSize
    && forall i :: 0 <= i < |s.q.jobs| ==> |s.q.jobs[i].args| == ArgCount
  }

  /** `(s & 3) != 0`: the RSP is halted or has hit a break. */
  predicate Stopped(s: Sched)
  {
    s.halt || s.broke
  }

  /** The scheduling invariant: a job is RUNNING only as the head of the queue. */
  predicate RunningIsHead(s: Sched)
  {
    forall i :: 0 <= i < |s.q.jobs| && s.q.jobs[i].state == Running ==> s.q.head == Some(i)
  }

  function SetState(q: JobQueue, i: nat, st: JobState): (r: JobQueue)
    requires i < |q.jobs|
    ensures Wf(q) ==> Wf(r)
  {
    q.(jobs := q.jobs[i := q.jobs[i].(state := st)])
  }

  /** The head job can be started: it exists and has a non-null entry vector. */
  predicate HeadStartable(s: Sched)
    requires Ok(s)
  {
    s.q.head.Some? && s.q.jobs[s.q.head.value].fn != 0
  }

  /**
   * The start sequence repeated in src/rsp.c: when the head has a non-null `fn`, copy its
   * arguments to the top of DMEM, point the PC at `fn`, clear halt and mark it RUNNING.
   */
  function StartHeadStep(s: Sched): (r: Sched)
    requires Ok(s)
    ensures Ok(r) && |r.q.jobs| == |s.q.jobs| && r.q.head == s.q.head && r.broke == s.broke
    ensures r.calls == s.calls
  {
    if HeadStartable(s) then
      var h := s.q.head.value;
      s.(mem := CopyArgs(s.mem, s.q.jobs[h].args), pc := s.q.jobs[h].fn, halt := false,
         q := SetState(s.q, h, Running))
    else s
  }

  /** `rsp_queue_job` (src/rsp.c:414-442). */
  function QueueJobStep(s: Sched, j: nat): (r: Sched)
    requires Ok(s) && j < |s.q.jobs|
    ensures Ok(r) && |r.q.jobs| == |s.q.jobs|
  {
    var s1 := s.(q := SetState(AddTail(s.q, j), j, Queued));
    if Stopped(s1) then StartHeadStep(s1) else s1
  }

  /** `__rsp_interrupt` (src/rsp.c:274-305). */
  function InterruptStep(s: Sched): (r: Sched)
    requires Ok(s)
    ensures Ok(r) && |r.q.jobs| == |s.q.jobs|
  {
    var s1 := s.(halt := true, broke := false);
    var (q1, removed) := RemoveHead(s1.q);
    var s2 := if removed.None? then s1.(q := q1) else RetireStep(s1.(q := q1), removed.value);
    StartHeadStep(s2)
  }

  /** The removed head is FINISHED while its callback (if any) runs, and IDLE afterwards. */
  function RetireStep(s: Sched, j: nat): (r: Sched)
    requires Ok(s) && j < |s.q.jobs|
    ensures Ok(r) && |r.q.jobs| == |s.q.jobs|
  {
    var qf := SetState(s.q, j, Finished);
    var calls := if qf.jobs[j].cb.Some? then s.calls + [Callback(j, qf.jobs[j].cb.value, qf.jobs[j].state)]
                 else s.calls;
    s.(q := SetState(qf, j, Idle), calls := calls)
  }

  /** What `rsp_abort_job` needs: unlinking a QUEUED job must not dereference a null neighbour. */
  predicate CanAbort(s: Sched, j: nat)
  {
    Ok(s) && j < |s.q.jobs| && (s.q.jobs[j].state == Queued ==> CanRemoveNode(s.q, j))
  }

  /** `rsp_abort_job` (src/rsp.c:478-526). */
  function AbortJobStep(s: Sched, j: nat): (r: Sched)
    requires CanAbort(s, j)
    ensures Ok(r) && |r.q.jobs| == |s.q.jobs|
  {
    var s2 := AbortUnlinkStep(s, j);
    s2.(q := SetState(s2.q, j, Idle))
  }

  /** The part of `rsp_abort_job` before the job is marked IDLE: take it off the queue. */
  function AbortUnlinkStep(s: Sched, j: nat): (r: Sched)
    requires CanAbort(s, j)
    ensures Ok(r) && |r.q.jobs| == |s.q.jobs|
  {
    var wasRunning := !Stopped(s);
    var s1 := s.(halt := true);
    if s.q.jobs[j].state == Queued then
      var s3 := s1.(q := RemoveNode(s1.q, j));
      if wasRunning then s3.(halt := false) else s3
    else if s.q.jobs[j].state == Running then
      var s3 := s1.(halt := true, broke := false);
      StartHeadStep(s3.(q := RemoveHead(s3.q).0))
    else if wasRunning then s1.(halt := false)
    else s1
  }

  // ---------------------------------------------------------------- starting a job

  /** A started head is RUNNING at its entry vector with its arguments readable from DMEM. */
  lemma StartHeadStarts(s: Sched)
    requires Ok(s) && HeadStartable(s)
    ensures var h := s.q.head.value; var r := StartHeadStep(s);
      && r.q.jobs[h].state == Running && r.pc == s.q.jobs[h].fn && !r.halt
      && (forall i :: 0 <= i < ArgCount ==> WordAt(r.mem, ArgsBase + 4 * i) == s.q.jobs[h].args[i])
      && (forall i :: 0 <= i < |s.q.jobs| && i != h ==> r.q.jobs[i] == s.q.jobs[i])
  {
    var h := s.q.head.value;
    forall i | 0 <= i < ArgCount
      ensures WordAt(StartHeadStep(s).mem, ArgsBase + 4 * i) == s.q.jobs[h].args[i]
    {
      CopyArgsReadsBack(s.mem, s.q.jobs[h].args, i);
    }
  }

  /** Starting the head makes no job RUNNING but the head. */
  lemma StartHeadRunsOnlyHead(s: Sched)
    requires Ok(s)
    ensures forall i :: 0 <= i < |s.q.jobs| && StartHeadStep(s).q.jobs[i].state == Running ==>
      s.q.jobs[i].state == Running || s.q.head == Some(i)
  {
  }

  lemma StartHeadKeepsInvariant(s: Sched)
    requires Ok(s) && RunningIsHead(s)
    ensures RunningIsHead(StartHeadStep(s))
  {
  }

  // ---------------------------------------------------------------- rsp_queue_job

  /**
   * Queueing marks the job QUEUED and, when the RSP is stopped and the head can be started,
   * starts the head.  Nothing else changes: no other job's state, and PC, halt and SP memory
   * only through that start.  The head pointer itself is never changed.
   */
  lemma QueueJobEffect(s: Sched, j: nat)
    requires Ok(s) && j < |s.q.jobs|
    ensures var r := QueueJobStep(s, j);
      var starts := Stopped(s) && HeadStartable(s);
      && r.q.head == s.q.head && r.calls == s.calls && r.broke == s.broke
      && r.q.jobs[j].state == (if starts && s.q.head == Some(j) then Running else Queued)
      && (starts ==> var h := s.q.head.value;
            r.q.jobs[h].state == Running && r.pc == s.q.jobs[h].fn && !r.halt
            && forall i :: 0 <= i < ArgCount ==> WordAt(r.mem, ArgsBase + 4 * i) == s.q.jobs[h].args[i])
      && (!starts ==> r.pc == s.pc && r.halt == s.halt && r.mem == s.mem)
      && (forall i :: 0 <= i < |s.q.jobs| && i != j && (starts ==> s.q.head != Some(i)) ==>
            r.q.jobs[i].state == s.q.jobs[i].state)
  {
    var s1 := s.(q := SetState(AddTail(s.q, j), j, Queued));
    assert HeadStartable(s1) == HeadStartable(s);
    if Stopped(s) && HeadStartable(s) {
      StartHeadStarts(s1);
    }
  }

  lemma QueueJobKeepsInvariant(s: Sched, j: nat)
    requires Ok(s) && j < |s.q.jobs| && RunningIsHead(s)
    ensures RunningIsHead(QueueJobStep(s, j))
  {
    var s1 := s.(q := SetState(AddTail(s.q, j), j, Queued));
    assert RunningIsHead(s1);
    StartHeadKeepsInvariant(s1);
  }

  // ---------------------------------------------------------------- __rsp_interrupt

  /**
   * The break interrupt retires the head: its callback (if any) runs once and sees it
   * FINISHED, no other callback runs, and unless it is also its own successor it ends IDLE.
   */
  lemma InterruptRetiresHead(s: Sched)
    requires Ok(s) && s.q.head.Some?
    ensures var h := s.q.head.value; var r := InterruptStep(s);
      && r.calls == s.calls + (if s.q.jobs[h].cb.Some? then [Callback(h, s.q.jobs[h].cb.value, Finished)] else [])
      && (s.q.jobs[h].next != Some(h) ==> r.q.jobs[h].state == Idle)
      && r.q.head == s.q.jobs[h].next
  {
  }

  /** With nothing queued the interrupt only halts the RSP and clears broke. */
  lemma InterruptOnEmpty(s: Sched)
    requires Ok(s) && s.q.head.None?
    ensures InterruptStep(s) == s.(halt := true, broke := false, q := s.q.(tail := None))
  {
  }

  /** The successor of the retired head is started when its `fn` is non-null; else the RSP stays halted. */
  lemma InterruptStartsNext(s: Sched)
    requires Ok(s)
    ensures var r := InterruptStep(s);
      && (HeadStartable(r) ==> var n := r.q.head.value;
            r.q.jobs[n].state == Running && r.pc == r.q.jobs[n].fn && !r.halt && !r.broke)
      && (!HeadStartable(r) ==> r.halt && !r.broke && r.pc == s.pc && r.mem == s.mem)
  {
  }

  lemma InterruptKeepsInvariant(s: Sched)
    requires Ok(s) && RunningIsHead(s)
    ensures RunningIsHead(InterruptStep(s))
  {
    var s1 := s.(halt := true, broke := false);
    var (q1, removed) := RemoveHead(s1.q);
    var s2 := if removed.None? then s1.(q := q1) else RetireStep(s1.(q := q1), removed.value);
    assert forall i :: 0 <= i < |s2.q.jobs| ==> s2.q.jobs[i].state != Running;
    StartHeadKeepsInvariant(s2);
  }

  // ---------------------------------------------------------------- rsp_abort_job

  /** An aborted job always ends IDLE, whatever state it was in. */
  lemma AbortEndsIdle(s: Sched, j: nat)
    requires CanAbort(s, j)
    ensures AbortJobStep(s, j).q.jobs[j].state == Idle
  {
  }

  /**
   * Aborting a QUEUED job unlinks it and marks it IDLE; every other job keeps its state, no
   * callback runs and the PC and SP memory are untouched.  A running RSP is let run on; a
   * stopped one ends halted, also when it had only hit a break.
   */
  lemma AbortQueued(s: Sched, j: nat)
    requires CanAbort(s, j) && s.q.jobs[j].state == Queued
    ensures var r := AbortJobStep(s, j);
      && r.q == SetState(RemoveNode(s.q, j), j, Idle)
      && (forall i :: 0 <= i < |s.q.jobs| && i != j ==> r.q.jobs[i].state == s.q.jobs[i].state)
      && r.calls == s.calls && r.pc == s.pc && r.mem == s.mem
      && r.halt == Stopped(s) && r.broke == s.broke
  {
    var q1 := RemoveNode(s.q, j);
    var s3 := s.(halt := true, q := q1);
    var s2 := if !Stopped(s) then s3.(halt := false) else s3;
    assert AbortJobStep(s, j) == s2.(q := SetState(q1, j, Idle));
  }

  /**
   * Aborting the RUNNING job removes it as the head without running its callback, and starts
   * the next head if its `fn` is non-null.
   */
  lemma AbortRunning(s: Sched, j: nat)
    requires CanAbort(s, j) && s.q.jobs[j].state == Running && RunningIsHead(s)
    ensures var r := AbortJobStep(s, j);
      && r.calls == s.calls
      && r.q.head == s.q.jobs[j].next
      && (forall i :: 0 <= i < |s.q.jobs| && i != j && Some(i) != r.q.head ==>
            r.q.jobs[i].state == s.q.jobs[i].state)
      && (HeadStartable(r) && r.q.head != Some(j) ==>
            r.q.jobs[r.q.head.value].state == Running && r.pc == r.q.jobs[r.q.head.value].fn && !r.halt)
      && (!HeadStartable(r) ==> r.halt && !r.broke && r.pc == s.pc)
  {
  }

  /** Aborting an IDLE or FINISHED job changes nothing but its state and, as above, the halt bit. */
  lemma AbortInactive(s: Sched, j: nat)
    requires CanAbort(s, j) && (s.q.jobs[j].state == Idle || s.q.jobs[j].state == Finished)
    ensures AbortJobStep(s, j) == s.(q := SetState(s.q, j, Idle), halt := Stopped(s))
  {
  }

  lemma AbortKeepsInvariant(s: Sched, j: nat)
    requires CanAbort(s, j) && RunningIsHead(s)
    ensures RunningIsHead(AbortJobStep(s, j))
  {
    var s2 := AbortUnlinkStep(s, j);
    var r := AbortJobStep(s, j);
    assert r == s2.(q := SetState(s2.q, j, Idle));
    AbortUnlinkKeepsInvariant(s, j);
    forall i | 0 <= i < |r.q.jobs| && r.q.jobs[i].state == Running
      ensures r.q.head == Some(i)
    {
      assert i != j && s2.q.jobs[i].state == Running;
    }
  }

  /** After unlinking, a RUNNING job other than the aborted one is still the head. */
  lemma AbortUnlinkKeepsInvariant(s: Sched, j: nat)
    requires CanAbort(s, j) && RunningIsHead(s)
    ensures var s2 := AbortUnlinkStep(s, j);
      forall i :: 0 <= i < |s2.q.jobs| && i != j && s2.q.jobs[i].state == Running ==> s2.q.head == Some(i)
  {
    if s.q.jobs[j].state == Running {
      var s3 := s.(halt := true, broke := false);
      var s4 := s3.(q := RemoveHead(s3.q).0);
      assert AbortUnlinkStep(s, j) == StartHeadStep(s4);
      assert forall i :: 0 <= i < |s4.q.jobs| && s4.q.jobs[i].state == Running ==> i == j;
      StartHeadRunsOnlyHead(s4);
    } else if s.q.jobs[j].state == Queued {
      var q1 := RemoveNode(s.q, j);
      assert AbortUnlinkStep(s, j).q == q1;
      assert forall i :: 0 <= i < |s.q.jobs| ==> q1.jobs[i].state == s.q.jobs[i].state;
    }
  }

  // ---------------------------------------------------------------- the ADD_TAIL defect, end to end

  /**
   * Because ADD_TAIL never sets `head`, a scheduler whose queue is empty (as `rsp_init`,
   * `rsp_close` and `rsp_load_lib` leave it) never starts a job: after any entry point the
   * head is still null, no job is RUNNING and the PC is unchanged.
   */
  lemma NoJobEverStarts(s: Sched, j: nat)
    requires Ok(s) && s.q.head.None? && RunningIsHead(s) && j < |s.q.jobs|
    ensures var r := QueueJobStep(s, j);
      r.q.head.None? && RunningIsHead(r) && r.pc == s.pc
    ensures var r := InterruptStep(s);
      r.q.head.None? && RunningIsHead(r) && r.pc == s.pc
    ensures CanAbort(s, j) ==> var r := AbortJobStep(s, j);
      r.q.head.None? && RunningIsHead(r) && r.pc == s.pc
  {
    QueueJobEffect(s, j);
    QueueJobKeepsInvariant(s, j);
    InterruptKeepsInvariant(s);
    if CanAbort(s, j) {
      AbortKeepsInvariant(s, j);
    }
  }
}
