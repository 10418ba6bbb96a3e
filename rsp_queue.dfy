/**
 * The RSP job queue of src/rsp.c as values: `job_t` records live in an arena (a sequence
 * indexed by job handle), `prev`/`next`/`head`/`tail` are optional handles, and the three list
 * primitives ADD_TAIL, REMOVE_HEAD and REMOVE_NODE are functions on the queue value.  The
 * class in rsp.dfy applies them in place.
 *
 * ADD_TAIL is modelled exactly as written: it never sets `head` and never links the old
 * tail's `next`.  The lemmas below show what that does to the FIFO the module promises.
 */
module RspQueue {
  import opened Words

  /** JOB_STATE_IDLE .. JOB_STATE_FINISHED (include/rsp.h:32-35). */
  datatype JobState = Idle | Queued | Running | Finished

  /** `job_t` (include/rsp.h:17-27); `cb` is an opaque callback identity, None for NULL. */
  datatype Job = Job(prev: Option<nat>, next: Option<nat>, cb: Option<nat>, state: JobState,
                     fn: Word, args: seq<Word>)

  /** `job_queue_t` (include/rsp.h:40-44) together with the records it points into. */
  datatype JobQueue = JobQueue(jobs: seq<Job>, head: Option<nat>, tail: Option<nat>)

  /** `b` is `a` with at most its `prev`/`next` links changed. */
  predicate Relinked(a: Job, b: Job)
  {
    a.cb == b.cb && a.state == b.state && a.fn == b.fn && a.args == b.args
  }

  predicate InArena(q: JobQueue, h: Option<nat>)
  {
    h.None? || h.value < |q.jobs|
  }

  /** Every pointer refers to an existing record. */
  predicate Wf(q: JobQueue)
  {
    && InArena(q, q.head) && InArena(q, q.tail)
    && forall i :: 0 <= i < |q.jobs| ==> InArena(q, q.jobs[i].prev) && InArena(q, q.jobs[i].next)
  }

  /** Record `i` with its `prev` replaced; every other record and both ends unchanged. */
  function SetPrev(q: JobQueue, i: nat, p: Option<nat>): (r: JobQueue)
    requires i < |q.jobs|
  {
    q.(jobs := q.jobs[i := q.jobs[i].(prev := p)])
  }

  /** Record `i` with its `next` replaced; every other record and both ends unchanged. */
  function SetNext(q: JobQueue, i: nat, n: Option<nat>): (r: JobQueue)
    requires i < |q.jobs|
  {
    q.(jobs := q.jobs[i := q.jobs[i].(next := n)])
  }

  /**
   * ADD_TAIL (src/rsp.c:43-48) as written: `j` gets no successor and the old tail as
   * predecessor, and becomes the tail.  `head` and every other record are untouched; in
   * particular the old tail's `next` is not linked to `j`.
   */
  function AddTail(q: JobQueue, j: nat): (r: JobQueue)
    requires j < |q.jobs|
    ensures |r.jobs| == |q.jobs| && r.head == q.head && r.tail == Some(j)
    ensures r.jobs[j].next == None && r.jobs[j].prev == q.tail
    ensures forall i :: 0 <= i < |q.jobs| && i != j ==> r.jobs[i] == q.jobs[i]
    ensures forall i :: 0 <= i < |q.jobs| ==> Relinked(q.jobs[i], r.jobs[i])
    ensures Wf(q) ==> Wf(r)
  {
    q.(jobs := q.jobs[j := q.jobs[j].(next := None, prev := q.tail)], tail := Some(j))
  }

  /**
   * REMOVE_HEAD (src/rsp.c:55-71): the old head is returned; its successor becomes the head
   * with no predecessor.  On an empty queue both ends are cleared.  `tail` is otherwise left
   * alone, also when the last node goes.
   */
  function RemoveHead(q: JobQueue): (r: (JobQueue, Option<nat>))
    requires Wf(q)
    ensures Wf(r.0) && |r.0.jobs| == |q.jobs| && r.1 == q.head
    ensures forall i :: 0 <= i < |q.jobs| ==> Relinked(q.jobs[i], r.0.jobs[i])
    ensures q.head.None? ==> r.0 == q.(head := None, tail := None)
    ensures q.head.Some? ==> r.0.head == q.jobs[q.head.value].next && r.0.tail == q.tail
    ensures q.head.Some? ==> forall i :: 0 <= i < |q.jobs| ==>
      r.0.jobs[i] == (if Some(i) == q.jobs[q.head.value].next then q.jobs[i].(prev := None) else q.jobs[i])
  {
    match q.head
    case None => (q.(head := None, tail := None), None)
    case Some(h) =>
      var n := q.jobs[h].next;
      var q1 := q.(head := n);
      if n.Some? then (SetPrev(q1, n.value, None), Some(h)) else (q1, Some(h))
  }

  /** What REMOVE_NODE dereferences: in the middle case both neighbours must exist. */
  predicate CanRemoveNode(q: JobQueue, j: nat)
  {
    && Wf(q) && j < |q.jobs|
    && (q.head != Some(j) && q.tail != Some(j) ==> q.jobs[j].prev.Some? && q.jobs[j].next.Some?)
  }

  /**
   * REMOVE_NODE (src/rsp.c:76-95): unlink `j` as the head, else as the tail, else from the
   * middle.  Only `j`'s neighbours' links change; `j`'s own links are left as they were.
   */
  function RemoveNode(q: JobQueue, j: nat): (r: JobQueue)
    requires CanRemoveNode(q, j)
    ensures Wf(r) && |r.jobs| == |q.jobs|
    ensures forall i :: 0 <= i < |q.jobs| ==> Relinked(q.jobs[i], r.jobs[i])
    ensures forall i :: 0 <= i < |q.jobs| && Some(i) != q.jobs[j].prev && Some(i) != q.jobs[j].next
                        ==> r.jobs[i] == q.jobs[i]
  {
    var p := q.jobs[j].prev;
    var n := q.jobs[j].next;
    if q.head == Some(j) then
      var q1 := q.(head := n);
      if n.Some? then SetPrevFacts(q1, n.value, None); SetPrev(q1, n.value, None) else q1
    else if q.tail == Some(j) then
      var q1 := q.(tail := p);
      if p.Some? then SetNextFacts(q1, p.value, None); SetNext(q1, p.value, None) else q1
    else
      var q1 := SetPrev(q, n.value, p);
      SetPrevFacts(q, n.value, p);
      SetNextFacts(q1, p.value, n);
      SetNext(q1, p.value, n)
  }

  lemma SetPrevFacts(q: JobQueue, i: nat, p: Option<nat>)
    requires i < |q.jobs|
    ensures var r := SetPrev(q, i, p);
      && |r.jobs| == |q.jobs|
      && (Wf(q) && InArena(q, p) ==> Wf(r))
      && (forall k :: 0 <= k < |q.jobs| ==> Relinked(q.jobs[k], r.jobs[k]))
      && (forall k :: 0 <= k < |q.jobs| && k != i ==> r.jobs[k] == q.jobs[k])
  {
  }

  lemma SetNextFacts(q: JobQueue, i: nat, n: Option<nat>)
    requires i < |q.jobs|
    ensures var r := SetNext(q, i, n);
      && |r.jobs| == |q.jobs|
      && (Wf(q) && InArena(q, n) ==> Wf(r))
      && (forall k :: 0 <= k < |q.jobs| ==> Relinked(q.jobs[k], r.jobs[k]))
      && (forall k :: 0 <= k < |q.jobs| && k != i ==> r.jobs[k] == q.jobs[k])
  {
  }

  // ---------------------------------------------------------------- the FIFO the module promises

  predicate Distinct(s: seq<nat>)
  {
    forall a, b :: 0 <= a < b < |s| ==> s[a] != s[b]
  }

  /** The record at position `k` of `order` exists and its `next` is the record after it. */
  predicate NextAt(q: JobQueue, order: seq<nat>, k: int)
  {
    && 0 <= k < |order| && order[k] < |q.jobs|
    && q.jobs[order[k]].next == (if k + 1 < |order| then Some(order[k + 1]) else None)
  }

  /** The record at position `k` of `order` exists and its `prev` is the record before it. */
  predicate PrevAt(q: JobQueue, order: seq<nat>, k: int)
  {
    && 0 <= k < |order| && order[k] < |q.jobs|
    && q.jobs[order[k]].prev == (if k > 0 then Some(order[k - 1]) else None)
  }

  /**
   * `order` is the queue read from head to tail: distinct records, `head` and `tail` at the
   * ends, and `next`/`prev` linking each record to its neighbours in `order`.
   */
  predicate Linked(q: JobQueue, order: seq<nat>)
  {
    && (forall k :: 0 <= k < |order| ==> order[k] < |q.jobs|)
    && Distinct(order)
    && q.head == (if order == [] then None else Some(order[0]))
    && q.tail == (if order == [] then None else Some(order[|order| - 1]))
    && (forall k :: 0 <= k < |order| ==> NextAt(q, order, k) && PrevAt(q, order, k))
  }

  /**
   * The backward chain alone: `tail` at the end of `order` and each `prev` pointing to the
   * record before it.  This is all that ADD_TAIL maintains.
   */
  predicate BackLinked(q: JobQueue, order: seq<nat>)
  {
    && (forall k :: 0 <= k < |order| ==> order[k] < |q.jobs|)
    && Distinct(order)
    && q.tail == (if order == [] then None else Some(order[|order| - 1]))
    && (forall k :: 0 <= k < |order| ==> PrevAt(q, order, k))
  }

  lemma LinkedIsBackLinked(q: JobQueue, order: seq<nat>)
    requires Linked(q, order)
    ensures BackLinked(q, order)
  {
  }

  /**
   * Appending to a well-linked queue with ADD_TAIL never yields the FIFO with `j` at the end:
   * for an empty queue `head` stays null, otherwise the old tail's `next` stays null.
   */
  lemma AddTailBreaksFifo(q: JobQueue, order: seq<nat>, j: nat)
    requires Linked(q, order) && j < |q.jobs|
    requires forall k :: 0 <= k < |order| ==> order[k] != j
    ensures !Linked(AddTail(q, j), order + [j])
    ensures order == [] ==> AddTail(q, j).head == None
    ensures order != [] ==> AddTail(q, j).jobs[order[|order| - 1]].next == None
  {
    var r := AddTail(q, j);
    var o := order + [j];
    if order == [] {
      assert o[0] == j;
    } else {
      var t := order[|order| - 1];
      assert NextAt(q, order, |order| - 1);
      assert r.jobs[t] == q.jobs[t];
      assert o[|order| - 1] == t && o[|order|] == j;
      assert !NextAt(r, o, |order| - 1);
    }
  }

  /** What ADD_TAIL does achieve: the backward chain from `tail` gains `j` at the end. */
  lemma AddTailExtendsBackChain(q: JobQueue, order: seq<nat>, j: nat)
    requires BackLinked(q, order) && j < |q.jobs|
    requires forall k :: 0 <= k < |order| ==> order[k] != j
    ensures BackLinked(AddTail(q, j), order + [j])
  {
    var r := AddTail(q, j);
    var o := order + [j];
    forall k | 0 <= k < |o|
      ensures PrevAt(r, o, k)
    {
      if k < |order| {
        assert PrevAt(q, order, k);
        assert o[k] == order[k] && order[k] != j;
        if k > 0 { assert o[k - 1] == order[k - 1]; }
      } else {
        assert o[k] == j;
        if k > 0 { assert o[k - 1] == order[|order| - 1]; }
      }
    }
    assert Distinct(o) by {
      forall a, b | 0 <= a < b < |o| ensures o[a] != o[b]
      {
        assert o[a] == order[a];
        if b < |order| { assert o[b] == order[b]; }
      }
    }
  }

  /**
   * REMOVE_HEAD on a well-linked queue returns its first record; with two or more records the
   * rest stays well linked, and when the last record goes `tail` still points at it.
   */
  lemma RemoveHeadOfLinked(q: JobQueue, order: seq<nat>)
    requires Wf(q) && Linked(q, order) && order != []
    ensures RemoveHead(q).1 == Some(order[0])
    ensures |order| >= 2 ==> Linked(RemoveHead(q).0, order[1..])
    ensures |order| == 1 ==> RemoveHead(q).0.head == None && RemoveHead(q).0.tail == Some(order[0])
    ensures |order| == 1 ==> !Linked(RemoveHead(q).0, [])
  {
    assert NextAt(q, order, 0);
    if |order| >= 2 {
      assert RemoveHead(q).0 == SetPrev(q.(head := Some(order[1])), order[1], None);
      FirstRelinked(q, order);
    }
  }

  /** REMOVE_HEAD on an empty queue clears both ends and returns nothing. */
  lemma RemoveHeadOfEmpty(q: JobQueue)
    requires Wf(q) && q.head == None
    ensures RemoveHead(q).0.head == None && RemoveHead(q).0.tail == None && RemoveHead(q).1 == None
    ensures RemoveHead(q).0.jobs == q.jobs
  {
  }

  /** `order` without its element at position `k`. */
  function Without(order: seq<nat>, k: nat): (o: seq<nat>)
    requires k < |order|
    ensures |o| == |order| - 1
    ensures forall m :: 0 <= m < |o| ==> o[m] == (if m < k then order[m] else order[m + 1])
  {
    order[..k] + order[k + 1..]
  }

  lemma WithoutDistinct(order: seq<nat>, k: nat)
    requires k < |order| && Distinct(order)
    ensures Distinct(Without(order, k))
  {
    var o := Without(order, k);
    forall a, b | 0 <= a < b < |o| ensures o[a] != o[b]
    {
      var a' := if a < k then a else a + 1;
      var b' := if b < k then b else b + 1;
      assert o[a] == order[a'] && o[b] == order[b'] && a' < b';
    }
  }

  /** A record of a well-linked queue can always be unlinked. */
  lemma LinkedCanRemove(q: JobQueue, order: seq<nat>, k: nat)
    requires Wf(q) && Linked(q, order) && k < |order|
    ensures CanRemoveNode(q, order[k])
  {
    if q.head != Some(order[k]) && q.tail != Some(order[k]) {
      assert k != 0 && k != |order| - 1;
      assert NextAt(q, order, k) && PrevAt(q, order, k);
    }
  }

  /**
   * REMOVE_NODE of the record at position `k` of a well-linked queue of two or more records
   * leaves exactly the others, in their original order.
   */
  lemma RemoveNodeKeepsOrder(q: JobQueue, order: seq<nat>, k: nat)
    requires Wf(q) && Linked(q, order) && k < |order| && |order| >= 2
    ensures CanRemoveNode(q, order[k])
    ensures Linked(RemoveNode(q, order[k]), Without(order, k))
  {
    LinkedCanRemove(q, order, k);
    var j := order[k];
    assert NextAt(q, order, k) && PrevAt(q, order, k);
    if k == 0 {
      assert Without(order, k) == order[1..];
      assert RemoveNode(q, j) == SetPrev(q.(head := Some(order[1])), order[1], None);
      FirstRelinked(q, order);
    } else if k == |order| - 1 {
      assert q.head != Some(j) by { assert order[0] != order[k]; }
      assert Without(order, k) == order[..k];
      assert RemoveNode(q, j) == SetNext(q.(tail := Some(order[k - 1])), order[k - 1], None);
      LastRelinked(q, order);
    } else {
      assert q.head != Some(j) by { assert order[0] != order[k]; }
      assert q.tail != Some(j) by { assert order[|order| - 1] != order[k]; }
      InnerRelinked(q, order, k);
    }
  }

  /** REMOVE_HEAD's and REMOVE_NODE's head case, on a well-linked queue. */
  lemma FirstRelinked(q: JobQueue, order: seq<nat>)
    requires Linked(q, order) && |order| >= 2
    ensures Linked(SetPrev(q.(head := Some(order[1])), order[1], None), order[1..])
  {
    var o := order[1..];
    var r := SetPrev(q.(head := Some(order[1])), order[1], None);
    forall m | 0 <= m < |o|
      ensures NextAt(r, o, m) && PrevAt(r, o, m)
    {
      FirstLinkAt(q, order, m);
    }
    assert Distinct(o) by {
      forall a, b | 0 <= a < b < |o| ensures o[a] != o[b]
      {
        assert o[a] == order[a + 1] && o[b] == order[b + 1];
      }
    }
  }

  /** One position of FirstRelinked. */
  lemma FirstLinkAt(q: JobQueue, order: seq<nat>, m: nat)
    requires Linked(q, order) && |order| >= 2 && m < |order| - 1
    ensures var r := SetPrev(q.(head := Some(order[1])), order[1], None);
      NextAt(r, order[1..], m) && PrevAt(r, order[1..], m)
  {
    var o := order[1..];
    assert NextAt(q, order, m + 1) && PrevAt(q, order, m + 1);
    assert o[m] == order[m + 1];
    if m > 0 { assert order[m + 1] != order[1]; assert o[m - 1] == order[m]; }
    if m + 1 < |o| { assert o[m + 1] == order[m + 2]; }
  }

  /** REMOVE_NODE's tail case, on a well-linked queue. */
  lemma LastRelinked(q: JobQueue, order: seq<nat>)
    requires Linked(q, order) && |order| >= 2
    ensures var k := |order| - 1;
      Linked(SetNext(q.(tail := Some(order[k - 1])), order[k - 1], None), order[..k])
  {
    var k := |order| - 1;
    var o := order[..k];
    var r := SetNext(q.(tail := Some(order[k - 1])), order[k - 1], None);
    forall m | 0 <= m < |o|
      ensures NextAt(r, o, m) && PrevAt(r, o, m)
    {
      LastLinkAt(q, order, m);
    }
    assert Distinct(o) by {
      forall a, b | 0 <= a < b < |o| ensures o[a] != o[b]
      {
        assert o[a] == order[a] && o[b] == order[b];
      }
    }
  }

  /** One position of LastRelinked. */
  lemma LastLinkAt(q: JobQueue, order: seq<nat>, m: nat)
    requires Linked(q, order) && |order| >= 2 && m < |order| - 1
    ensures var k := |order| - 1;
      var r := SetNext(q.(tail := Some(order[k - 1])), order[k - 1], None);
      NextAt(r, order[..k], m) && PrevAt(r, order[..k], m)
  {
    var k := |order| - 1;
    var o := order[..k];
    assert NextAt(q, order, m) && PrevAt(q, order, m);
    assert o[m] == order[m];
    if m > 0 { assert o[m - 1] == order[m - 1]; }
    if m + 1 < |o| { assert order[m] != order[k - 1]; assert o[m + 1] == order[m + 1]; }
  }

  /** The two pointer updates of REMOVE_NODE's middle case relink the neighbours of `order[k]`. */
  lemma InnerRelinked(q: JobQueue, order: seq<nat>, k: nat)
    requires Linked(q, order) && 0 < k < |order| - 1
    ensures Linked(SetNext(SetPrev(q, order[k + 1], Some(order[k - 1])), order[k - 1], Some(order[k + 1])),
                   Without(order, k))
  {
    var r := SetNext(SetPrev(q, order[k + 1], Some(order[k - 1])), order[k - 1], Some(order[k + 1]));
    var o := Without(order, k);
    forall m | 0 <= m < |o|
      ensures NextAt(r, o, m) && PrevAt(r, o, m)
    {
      InnerLinkAt(q, order, k, m);
    }
    WithoutDistinct(order, k);
    assert o[0] == order[0] && o[|o| - 1] == order[|order| - 1];
  }

  /** One position of InnerRelinked. */
  lemma InnerLinkAt(q: JobQueue, order: seq<nat>, k: nat, m: nat)
    requires Linked(q, order) && 0 < k < |order| - 1 && m < |order| - 1
    ensures var r := SetNext(SetPrev(q, order[k + 1], Some(order[k - 1])), order[k - 1], Some(order[k + 1]));
      NextAt(r, Without(order, k), m) && PrevAt(r, Without(order, k), m)
  {
    var o := Without(order, k);
    var p := order[k - 1];
    var n := order[k + 1];
    assert p != n;
    if m < k {
      assert NextAt(q, order, m) && PrevAt(q, order, m);
      assert o[m] == order[m] && o[m] != n;
      if m + 1 < k { assert o[m + 1] == order[m + 1]; } else { assert o[m + 1] == n; }
      if m > 0 { assert o[m - 1] == order[m - 1]; }
    } else {
      assert NextAt(q, order, m + 1) && PrevAt(q, order, m + 1);
      assert o[m] == order[m + 1] && o[m] != p;
      if m + 1 < |o| { assert o[m + 1] == order[m + 2]; }
      if m > k { assert o[m - 1] == order[m]; } else { assert o[m - 1] == p; }
    }
  }

  /** Unlinking the only record leaves `tail` pointing at it. */
  lemma RemoveNodeOfSingle(q: JobQueue, j: nat)
    requires Wf(q) && Linked(q, [j])
    ensures CanRemoveNode(q, j)
    ensures RemoveNode(q, j).head == None && RemoveNode(q, j).tail == Some(j)
  {
    assert NextAt(q, [j], 0);
  }

  /**
   * Together the two defects make a small reachable crash: starting from an empty queue,
   * queueing jobs 0 and 1 and then unlinking job 0 reaches REMOVE_NODE's middle case, which
   * dereferences job 0's null `next`.
   */
  lemma AddTwiceThenRemoveFirstDereferencesNull(jobs: seq<Job>)
    requires |jobs| >= 2
    requires forall i :: 0 <= i < |jobs| ==> jobs[i].prev == None && jobs[i].next == None
    ensures var q := AddTail(AddTail(JobQueue(jobs, None, None), 0), 1);
      && Wf(q) && q.head != Some(0) && q.tail != Some(0) && q.jobs[0].next == None
      && !CanRemoveNode(q, 0)
  {
    var q0 := JobQueue(jobs, None, None);
    assert Wf(q0);
  }
}
