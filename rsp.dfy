/**
 * The RSP job scheduler of src/rsp.c as an object: the global `jobQueue`, the job records it
 * links, the coprocessor's status bits, PC and SP memory, all updated in place the way the C
 * code does.  Each entry point is proved to take the state to what the step functions of
 * RspSched say, and so inherits the properties proved there.
 *
 * Job callbacks are recorded in `calls` rather than run; a callback is assumed not to call
 * back into the scheduler.
 */
module Rsp {
  import opened Words
  import opened RspQueue
  import opened RspEncode
  import opened RspSched

  /** One programmed SP DMA read: the SP_MEM_ADDR, SP_DRAM_ADDR and SP_RD_LEN words. */
  datatype DmaRead = DmaRead(memAddr: Word, dramAddr: Word, length: Word)

  /**
   * `rsp_new_job`'s record payload: a zeroed argument array whose first `count` words are the
   * supplied arguments.
   */
  method JobArgs(count: nat, supplied: seq<Word>) returns (args: seq<Word>)
    requires count <= ArgCount && count <= |supplied|
    ensures |args| == ArgCount
    ensures forall i :: 0 <= i < ArgCount ==> args[i] == (if i < count then supplied[i] else 0)
  {
    var a := new Word[ArgCount](_ => 0);
    for i := 0 to count
      invariant forall k :: 0 <= k < ArgCount ==> a[k] == (if k < i then supplied[k] else 0)
    {
      a[i] := supplied[i];
    }
    args := a[..];
  }

  class Scheduler {
    /** Every job record ever allocated, indexed by handle. */
    var jobs: seq<Job>
    var head: Option<nat>
    var tail: Option<nat>
    /** SP_STATUS bit 0 (halt) and bit 1 (broke). */
    var halt: bool
    var broke: bool
    var pc: Word
    /** DMEM followed by IMEM. */
    var mem: seq<byte>
    var calls: seq<Callback>
    var dma: seq<DmaRead>

    function State(): Sched
      reads this
    {
      Sched(JobQueue(jobs, head, tail), halt, broke, pc, mem, calls)
    }

    predicate Valid()
      reads this
    {
      Ok(State())
    }

    /** `rsp_init` (src/rsp.c:311-326): halt the RSP, clear broke, empty the queue. */
    constructor(spMem: seq<byte>, pc0: Word)
      requires |spMem| == SpMemSize
      ensures Valid()
      ensures State() == Sched(JobQueue([], None, None), true, false, pc0, spMem, [])
      ensures RunningIsHead(State()) && dma == []
    {
      jobs := [];
      head, tail := None, None;
      halt, broke := true, false;
      pc := pc0;
      mem := spMem;
      calls := [];
      dma := [];
    }

    /** `rsp_close` (src/rsp.c:331-345): halt the RSP, clear broke, empty the queue. */
    method Close()
      requires Valid()
      modifies this
      ensures Valid()
      ensures State() == old(State()).(halt := true, broke := false, q := JobQueue(old(jobs), None, None))
      ensures dma == old(dma)
    {
      halt, broke := true, false;
      head, tail := None, None;
    }

    /**
     * `rsp_load_lib` (src/rsp.c:356-377): halt, empty the queue, then DMA the library's data
     * half into DMEM and its text half into IMEM, each as one 4 KiB transfer.
     */
    method LoadLib(lib: seq<byte>, libAddr: Word)
      requires Valid() && |lib| == SpMemSize
      modifies this
      ensures Valid()
      ensures State() == old(State()).(halt := true, broke := false, q := JobQueue(old(jobs), None, None), mem := lib)
      ensures dma == old(dma) + [DmaRead(0, libAddr, 0xFFF), DmaRead(0x1000, libAddr + 0x1000, 0xFFF)]
    {
      halt, broke := true, false;
      head, tail := None, None;
      dma := dma + [DmaRead(DmaOffsetWord(0x0000), libAddr, DmaLengthWord(0x1000))];
      dma := dma + [DmaRead(DmaOffsetWord(0x1000), libAddr + 0x1000, DmaLengthWord(0x1000))];
      mem := lib;
    }

    /** ADD_TAIL (src/rsp.c:43-48), in place. */
    method AddTail(j: nat)
      requires Valid() && j < |jobs|
      modifies this
      ensures Valid()
      ensures State() == old(State()).(q := RspQueue.AddTail(old(State()).q, j))
      ensures dma == old(dma)
    {
      jobs := jobs[j := jobs[j].(next := None)];
      jobs := jobs[j := jobs[j].(prev := tail)];
      tail := Some(j);
    }

    /** REMOVE_HEAD (src/rsp.c:55-71), in place. */
    method RemoveHead() returns (r: Option<nat>)
      requires Valid()
      modifies this
      ensures Valid()
      ensures (State().q, r) == RspQueue.RemoveHead(old(State()).q)
      ensures State() == old(State()).(q := State().q)
      ensures dma == old(dma)
    {
      r := head;
      if r.Some? {
        head := jobs[r.value].next;
        if head.Some? {
          jobs := jobs[head.value := jobs[head.value].(prev := None)];
        }
      } else {
        head, tail := None, None;
      }
    }

    /** REMOVE_NODE (src/rsp.c:76-95), in place. */
    method RemoveNode(j: nat)
      requires Valid() && CanRemoveNode(State().q, j)
      modifies this
      ensures Valid()
      ensures State() == old(State()).(q := RspQueue.RemoveNode(old(State()).q, j))
      ensures dma == old(dma)
    {
      ghost var q0 := State().q;
      if head == Some(j) {
        head := jobs[j].next;
        if head.Some? {
          jobs := jobs[head.value := jobs[head.value].(prev := None)];
        }
        assert JobQueue(jobs, head, tail) == RspQueue.RemoveNode(q0, j);
      } else if tail == Some(j) {
        tail := jobs[j].prev;
        if tail.Some? {
          jobs := jobs[tail.value := jobs[tail.value].(next := None)];
        }
        assert JobQueue(jobs, head, tail) == RspQueue.RemoveNode(q0, j);
      } else {
        var n, p := jobs[j].next.value, jobs[j].prev.value;
        jobs := jobs[n := jobs[n].(prev := jobs[j].prev)];
        jobs := jobs[p := jobs[p].(next := jobs[j].next)];
        assert JobQueue(jobs, head, tail) == RspQueue.RemoveNode(q0, j);
      }
    }

    /** The start sequence shared by src/rsp.c:293-302, 429-438 and 505-514. */
    method StartHead()
      requires Valid()
      modifies this
      ensures Valid()
      ensures State() == StartHeadStep(old(State()))
      ensures dma == old(dma)
    {
      var j := head;
      if j.Some? && jobs[j.value].fn != 0 {
        var h := j.value;
        mem := CopyArgs(mem, jobs[h].args);
        pc := jobs[h].fn;
        halt := false;
        jobs := jobs[h := jobs[h].(state := Running)];
      }
    }

    /** `rsp_queue_job` (src/rsp.c:414-442). */
    method QueueJob(j: nat)
      requires Valid() && j < |jobs|
      modifies this
      ensures Valid()
      ensures State() == QueueJobStep(old(State()), j)
      ensures RunningIsHead(old(State())) ==> RunningIsHead(State())
      ensures dma == old(dma)
    {
      ghost var s0 := State();
      AddTail(j);
      jobs := jobs[j := jobs[j].(state := Queued)];
      var stopped := halt || broke;
      if stopped {
        StartHead();
      }
      if RunningIsHead(s0) {
        QueueJobKeepsInvariant(s0, j);
      }
    }

    /** `__rsp_interrupt` (src/rsp.c:274-305), called by the environment on an RSP break. */
    method Interrupt()
      requires Valid()
      modifies this
      ensures Valid()
      ensures State() == InterruptStep(old(State()))
      ensures RunningIsHead(old(State())) ==> RunningIsHead(State())
      ensures dma == old(dma)
    {
      ghost var s0 := State();
      halt, broke := true, false;
      var j := RemoveHead();
      if j.Some? {
        Retire(j.value);
      }
      StartHead();
      if RunningIsHead(s0) {
        InterruptKeepsInvariant(s0);
      }
    }

    /** src/rsp.c:284-291: finish job `k`, run its callback, and make it IDLE. */
    method Retire(k: nat)
      requires Valid() && k < |jobs|
      modifies this
      ensures Valid()
      ensures State() == RetireStep(old(State()), k)
      ensures dma == old(dma)
    {
      jobs := jobs[k := jobs[k].(state := Finished)];
      if jobs[k].cb.Some? {
        calls := calls + [Callback(k, jobs[k].cb.value, jobs[k].state)];
      }
      jobs := jobs[k := jobs[k].(state := Idle)];
    }

    /** `rsp_abort_job` (src/rsp.c:478-526). */
    method AbortJob(j: nat)
      requires Valid() && CanAbort(State(), j)
      modifies this
      ensures Valid()
      ensures State() == AbortJobStep(old(State()), j)
      ensures RunningIsHead(old(State())) ==> RunningIsHead(State())
      ensures dma == old(dma)
    {
      ghost var s0 := State();
      AbortUnlink(j);
      ghost var s2 := State();
      jobs := jobs[j := jobs[j].(state := Idle)];
      assert State() == s2.(q := SetState(s2.q, j, Idle));
      if RunningIsHead(s0) {
        AbortKeepsInvariant(s0, j);
      }
    }

    /** src/rsp.c:484-522: halt the RSP and take job `j` off the queue by its state. */
    method AbortUnlink(j: nat)
      requires Valid() && CanAbort(State(), j)
      modifies this
      ensures Valid()
      ensures State() == AbortUnlinkStep(old(State()), j)
      ensures dma == old(dma)
    {
      ghost var s0 := State();
      var stopped := halt || broke;
      halt := true;
      ghost var s1 := State();
      if jobs[j].state == Queued {
        RemoveNode(j);
        if !stopped {
          halt := false;
        }
        ghost var s3 := s1.(q := RspQueue.RemoveNode(s1.q, j));
        assert State() == if !stopped then s3.(halt := false) else s3;
      } else if jobs[j].state == Running {
        halt, broke := true, false;
        ghost var s3 := State();
        var _ := RemoveHead();
        assert State() == s3.(q := RspQueue.RemoveHead(s3.q).0);
        StartHead();
      } else {
        if !stopped {
          halt := false;
        }
      }
    }

    /**
     * `rsp_new_job` (src/rsp.c:542-561): allocate a zeroed record (IDLE, unlinked) holding
     * `fn`, `cb` and the first `count` supplied arguments; a failed allocation yields null.
     */
    method NewJob(allocOk: bool, fn: Word, cb: Option<nat>, count: u32, supplied: seq<Word>)
      returns (j: Option<nat>)
      requires Valid() && count <= ArgCount && count <= |supplied|
      modifies this
      ensures Valid()
      ensures !allocOk ==> j.None? && State() == old(State())
      ensures allocOk ==> j == Some(|old(jobs)|) && |jobs| == |old(jobs)| + 1 && jobs[..|old(jobs)|] == old(jobs)
      ensures allocOk ==> var n := |old(jobs)|;
        && jobs[n].prev.None? && jobs[n].next.None? && jobs[n].state == Idle
        && jobs[n].fn == fn && jobs[n].cb == cb
        && forall i :: 0 <= i < ArgCount ==> jobs[n].args[i] == (if i < count then supplied[i] else 0)
      ensures allocOk ==> State() == old(State()).(q := State().q) && head == old(head) && tail == old(tail)
      ensures RunningIsHead(old(State())) ==> RunningIsHead(State())
      ensures dma == old(dma)
    {
      if !allocOk {
        return None;
      }
      var args := JobArgs(count, supplied);
      j := Some(|jobs|);
      jobs := jobs + [Job(None, None, cb, Idle, fn, args)];
    }

    /** `rsp_lib_fn` (src/rsp.c:389-406): look up function `fn` of module `name` (a C string) in IMEM. */
    method LibFn(name: seq<byte>, fn: u32) returns (r: Word)
      requires Valid() && CString(name)
      ensures r == LibFnSpec(mem, name, fn)
    {
      var m := mem;
      var i: nat := 0;
      while TableWord(m, i) != 0
        invariant i % 2 == 0 && FindModule(m, name, 0) == FindModule(m, name, i)
        decreases |m| - 4 * i
      {
        FindModuleStep(m, name, i);
        if EntryMatches(m, i, name) {
          break;
        }
        i := i + 2;
      }
      FindModuleStep(m, name, i);
      if TableWord(m, i) == 0 {
        return 0;
      }
      r := WordAt(m, U32(TableWord(m, i + 1) as int + 4 * fn));
    }
  }
}
