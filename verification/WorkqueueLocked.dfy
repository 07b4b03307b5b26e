/**
 The work and queue records as objects, and the sections that run under the state lock.
 Each method is one section and refines one step of the machine in `Workqueue`.  Work waits on
 intrusive rings: a queue owns the head of its ring, an item carries the cell for its entry.  The
 machine's tickets and clock, the places of the cancellers and of the worker are ghost.
 */
module WorkqueueLocked {
  import opened Wrappers
  import opened IntrusiveList
  import opened Workqueue

  class WorkStruct {
    const id: nat
    const entry: ListHead
    var pending: nat
    var wq: WorkqueueStruct?
    var executing: bool
    var canceling: bool
    ghost var atTimer: nat
    ghost var atWait: nat
    ghost var ticket: nat
    ghost var place: nat

    constructor (id: nat)
      ensures this.id == id && fresh(this) && fresh(entry) && Abs() == Work(0, None, false, false, 0, 0, 0, 0)
    {
      this.id := id;
      entry := new ListHead();
      pending, wq, executing, canceling := 0, null, false, false;
      atTimer, atWait, ticket, place := 0, 0, 0, 0;
    }

    ghost function Abs(): Work
      reads this
    {
      Work(pending, if wq == null then None else Some(wq.id), executing, canceling, atTimer, atWait, ticket, place)
    }
  }

  class WorkqueueStruct {
    const id: nat
    const queueHead: ListHead
    ghost var queue: seq<WorkStruct>
    var running: bool
    var done: bool
    var active: nat
    ghost var worker: Worker
    ghost var destroyers: nat
    ghost var freed: bool

    constructor (id: nat)
      ensures this.id == id && fresh(this) && fresh(queueHead) && Abs() == Queue([], true, false, 0, Looking, 0, false)
      ensures Ring(RingCells())
    {
      this.id := id;
      queueHead := new ListHead();
      queue := [];
      running, done, active, worker, destroyers, freed := true, false, 0, Looking, 0, false;
      new;
      assert [queueHead] + Entries([]) == [queueHead];
    }

    ghost function Abs(): Queue
      reads this
    {
      Queue(Ids(queue), running, done, active, worker, destroyers, freed)
    }

    /** The cells of the ring: its head, then the entries of the items in their order. */
    ghost function RingCells(): seq<ListHead>
      reads this`queue
    {
      [queueHead] + Entries(queue)
    }
  }

  ghost function Entries(works: seq<WorkStruct>): (cells: seq<ListHead>)
    ensures |cells| == |works| && forall k :: 0 <= k < |works| ==> cells[k] == works[k].entry
  {
    seq(|works|, k requires 0 <= k < |works| => works[k].entry)
  }

  ghost function Ids(works: seq<WorkStruct>): (ids: seq<nat>)
    ensures |ids| == |works| && forall k :: 0 <= k < |works| ==> ids[k] == works[k].id
  {
    seq(|works|, k requires 0 <= k < |works| => works[k].id)
  }

  lemma IdsMore(works: seq<WorkStruct>, work: WorkStruct)
    ensures Ids(works + [work]) == Ids(works) + [work.id]
  {
  }

  /** Without the k-th item; for the first one that is the rest of the list. */
  lemma IdsWithout(works: seq<WorkStruct>, k: nat)
    requires k < |works|
    ensures Ids(works[..k] + works[k + 1..]) == Ids(works)[..k] + Ids(works)[k + 1..]
    ensures k == 0 ==> Ids(works[..k] + works[k + 1..]) == Ids(works)[1..]
    ensures k == IndexOf(Ids(works), works[k].id) ==> Ids(works[..k] + works[k + 1..]) == Remove(Ids(works), works[k].id)
  {
    hide IndexOf;
  }

  lemma FewerItems(works: seq<WorkStruct>, k: nat)
    requires k < |works|
    ensures var rest := works[..k] + works[k + 1..];
      && (forall w :: w in rest ==> w in works)
      && (forall a :: 0 <= a < |rest| ==> rest[a] == works[if a < k then a else a + 1])
  {
  }

  /** Marking the item before its entry is removed comes to the same as marking it after. */
  lemma MarkCommutes(s: State, i: nat, delayed: bool)
    requires i < |s.items|
    ensures var r := RemovePending(SetItem(s, i, s.items[i].(canceling := true)), i);
      var w := r.items[i];
      SetItem(r, i, if delayed then w.(atTimer := w.atTimer + 1) else w.(atWait := w.atWait + 1)) == BeginCancel(s, i, delayed)
  {
    hide Remove, Mark;
  }

  class WorkSystem {
    const qs: seq<WorkqueueStruct>
    const works: seq<WorkStruct>
    ghost const cells: set<ListHead>
    ghost var log: seq<Ticket>
    ghost var clock: nat

    /** Every cell belongs to one queue or one item. */
    ghost predicate Cells() {
      && (forall q :: 0 <= q < |qs| ==> qs[q].id == q && qs[q].queueHead in cells)
      && (forall i :: 0 <= i < |works| ==> works[i].id == i && works[i].entry in cells)
      && (forall p, q :: 0 <= p < q < |qs| ==> qs[p].queueHead != qs[q].queueHead)
      && (forall i, j :: 0 <= i < j < |works| ==> works[i].entry != works[j].entry)
      && (forall q, i :: 0 <= q < |qs| && 0 <= i < |works| ==> qs[q].queueHead != works[i].entry)
    }

    /** The ring of queue `q` spells its items. */
    ghost predicate RingOk(q: nat)
      requires q < |qs|
      reads qs`queue, cells
    {
      && (forall a :: 0 <= a < |qs[q].queue| ==> Has(qs[q].queue[a]))
      && (forall c :: c in qs[q].RingCells() ==> c in cells)
      && Ring(qs[q].RingCells())
    }

    ghost predicate ListsApart(p: nat, q: nat)
      requires p < |qs| && q < |qs|
      reads qs`queue
    {
      forall w :: w in qs[p].queue ==> w !in qs[q].queue
    }

    /** The rings spell the queues, and no item is on two of them. */
    ghost predicate Rings()
      reads qs`queue, cells
    {
      && (forall q :: 0 <= q < |qs| ==> RingOk(q))
      && (forall p, q :: 0 <= p < |qs| && 0 <= q < |qs| && p != q ==> ListsApart(p, q))
    }

    ghost predicate Valid()
      reads works`wq, works`pending, qs`queue, cells
    {
      && Cells() && Rings()
      && (forall i :: 0 <= i < |works| ==> works[i].wq != null ==> Owns(works[i].wq))
      && (forall q, i :: 0 <= q < |qs| && 0 <= i < |works| && works[i] in qs[q].queue ==> works[i].pending == 1 && works[i].wq == qs[q])
    }

    ghost predicate Owns(wq: WorkqueueStruct) { wq.id < |qs| && qs[wq.id] == wq }

    ghost predicate Has(work: WorkStruct) { work.id < |works| && works[work.id] == work }

    ghost function Abs(): (s: State)
      reads this, qs, works
      ensures |s.qs| == |qs| && |s.items| == |works| && s.log == log && s.clock == clock
    {
      State(seq(|qs|, q requires 0 <= q < |qs| reads qs => qs[q].Abs()),
            seq(|works|, i requires 0 <= i < |works| reads works => works[i].Abs()),
            log, clock)
    }

    constructor (qs: seq<WorkqueueStruct>, works: seq<WorkStruct>)
      requires forall q :: 0 <= q < |qs| ==> qs[q].id == q && qs[q].Abs() == Queue([], true, false, 0, Looking, 0, false)
      requires forall i :: 0 <= i < |works| ==> works[i].id == i && works[i].Abs() == Work(0, None, false, false, 0, 0, 0, 0)
      requires forall q :: 0 <= q < |qs| ==> Ring(qs[q].RingCells())
      requires forall p, q :: 0 <= p < q < |qs| ==> qs[p].queueHead != qs[q].queueHead
      requires forall i, j :: 0 <= i < j < |works| ==> works[i].entry != works[j].entry
      requires forall q, i :: 0 <= q < |qs| && 0 <= i < |works| ==> qs[q].queueHead != works[i].entry
      ensures Valid() && Abs() == Start(|qs|, |works|)
    {
      this.qs := qs;
      this.works := works;
      cells := (set q | 0 <= q < |qs| :: qs[q].queueHead) + (set i | 0 <= i < |works| :: works[i].entry);
      log, clock := [], 0;
      new;
      forall q | 0 <= q < |qs| ensures qs[q].queue == [] && RingOk(q) {
        assert |qs[q].Abs().list| == 0;
      }
      assert Rings();
      hide Rings, RingOk;
      assert forall i :: 0 <= i < |works| ==> works[i].Abs().wq == None;
      StartIs();
    }

    lemma StartIs()
      requires log == [] && clock == 0
      requires forall q :: 0 <= q < |qs| ==> qs[q].Abs() == Queue([], true, false, 0, Looking, 0, false)
      requires forall i :: 0 <= i < |works| ==> works[i].Abs() == Work(0, None, false, false, 0, 0, 0, 0)
      ensures Abs() == Start(|qs|, |works|)
    {
    }

    /** The ring of another queue shares no cell with this one, nor with an item that is on no ring. */
    lemma RingsApart(p: nat, q: nat)
      requires Cells() && p < |qs| && q < |qs| && p != q && RingOk(p) && RingOk(q) && ListsApart(p, q)
      ensures forall c :: c in qs[p].RingCells() ==> c !in qs[q].RingCells()
    {
      var ps, us := qs[p].RingCells(), qs[q].RingCells();
      forall a, b | 0 <= a < |ps| && 0 <= b < |us| ensures ps[a] != us[b] {
        if a > 0 && b > 0 {
          assert qs[p].queue[a - 1] in qs[p].queue && qs[q].queue[b - 1] in qs[q].queue;
        }
      }
    }

    lemma EntryApart(work: WorkStruct, p: nat)
      requires Cells() && Has(work) && p < |qs| && RingOk(p) && work !in qs[p].queue
      ensures work.entry !in qs[p].RingCells()
    {
      var ps := qs[p].RingCells();
      forall a | 0 <= a < |ps| ensures ps[a] != work.entry {
        if a > 0 {
          assert qs[p].queue[a - 1] in qs[p].queue;
        }
      }
    }

    lemma QueueDistinct(q: nat)
      requires q < |qs| && RingOk(q)
      ensures forall a, b :: 0 <= a < b < |qs[q].queue| ==> qs[q].queue[a] != qs[q].queue[b]
    {
      var cs := qs[q].RingCells();
      forall a, b | 0 <= a < b < |qs[q].queue| ensures qs[q].queue[a] != qs[q].queue[b] {
        assert cs[a + 1] != cs[b + 1];
      }
    }

    /** `list_add_tail` of the item's entry. */
    method AddTail(wq: WorkqueueStruct, work: WorkStruct)
      requires Cells() && Rings() && Owns(wq) && Has(work)
      requires forall q :: 0 <= q < |qs| ==> work !in qs[q].queue
      modifies wq`queue, cells
      ensures Rings() && wq.queue == old(wq.queue) + [work]
    {
      ghost var q := wq.id;
      assert RingOk(q);
      EntryApart(work, q);
      ghost var ring := [wq.queueHead] + Entries(wq.queue);
      forall p | 0 <= p < |qs| && p != q
        ensures forall c :: c in qs[p].RingCells() ==> c !in ring && c != work.entry
      {
        assert RingOk(p) && ListsApart(p, q);
        RingsApart(p, q);
        EntryApart(work, p);
      }
      ListAddTail(work.entry, wq.queueHead, Entries(wq.queue));
      wq.queue := wq.queue + [work];
      assert wq.RingCells() == [wq.queueHead] + (Entries(old(wq.queue)) + [work.entry]);
      assert RingOk(q);
      forall p | 0 <= p < |qs| && p != q ensures RingOk(p) {
        assert old(RingOk(p));
        ghost var cs := qs[p].RingCells();
        assert cs == old(qs[p].RingCells());
        forall i | 0 <= i < |cs| ensures cs[i].next == old(cs[i].next) && cs[i].prev == old(cs[i].prev) {
          assert cs[i] in cs;
        }
        RingStays(cs);
      }
      forall p, r | 0 <= p < |qs| && 0 <= r < |qs| && p != r ensures ListsApart(p, r) {
        assert old(ListsApart(p, r));
      }
    }

    lemma TakeOutFacts(q: nat, k: nat)
      requires Cells() && Rings() && q < |qs| && k < |qs[q].queue|
      ensures RingOk(q) && qs[q].queue[k] !in qs[q].queue[..k] + qs[q].queue[k + 1..]
      ensures forall p :: 0 <= p < |qs| && p != q ==> forall c :: c in qs[p].RingCells() ==> c !in qs[q].RingCells()
    {
      QueueDistinct(q);
      forall p | 0 <= p < |qs| && p != q
        ensures forall c :: c in qs[p].RingCells() ==> c !in qs[q].RingCells()
      {
        assert RingOk(p) && ListsApart(p, q);
        RingsApart(p, q);
      }
    }

    /** `list_del_init` of the entry of the k-th item. */
    method TakeOut(wq: WorkqueueStruct, work: WorkStruct, ghost k: nat)
      requires Cells() && Rings() && Owns(wq) && k < |wq.queue| && wq.queue[k] == work
      modifies wq`queue, cells
      ensures Rings() && wq.queue == old(wq.queue)[..k] + old(wq.queue)[k + 1..]
      ensures work !in wq.queue
    {
      ghost var q := wq.id;
      ghost var es := Entries(wq.queue);
      ghost var ring := [wq.queueHead] + es;
      TakeOutFacts(q, k);
      hide Cells;
      ListDelInit(work.entry, wq.queueHead, es, k);
      wq.queue := wq.queue[..k] + wq.queue[k + 1..];
      assert wq.RingCells() == [wq.queueHead] + (es[..k] + es[k + 1..]);
      FewerItems(old(wq.queue), k);
      assert RingOk(q);
      forall p | 0 <= p < |qs| && p != q ensures RingOk(p) {
        assert old(RingOk(p));
        ghost var cs := qs[p].RingCells();
        assert cs == old(qs[p].RingCells());
        forall i | 0 <= i < |cs| ensures cs[i].next == old(cs[i].next) && cs[i].prev == old(cs[i].prev) {
          assert cs[i] in cs;
        }
        RingStays(cs);
      }
      forall p, r | 0 <= p < |qs| && 0 <= r < |qs| && p != r ensures ListsApart(p, r) {
        assert old(ListsApart(p, r));
      }
    }

    lemma NotQueued(work: WorkStruct)
      requires Valid() && Has(work) && work.pending != 1
      ensures forall q :: 0 <= q < |qs| ==> work !in qs[q].queue
    {
      hide Rings;
      assert works[work.id] == work;
    }

    lemma HasQueued(wq: WorkqueueStruct, k: nat)
      requires Cells() && Rings() && Owns(wq) && k < |wq.queue|
      ensures Has(wq.queue[k])
    {
      assert RingOk(wq.id);
    }

    /** `container_of` of the first entry. */
    method FirstWork(wq: WorkqueueStruct) returns (work: WorkStruct)
      requires Cells() && Rings() && Owns(wq) && wq.queue != []
      ensures work == wq.queue[0] && Has(work)
    {
      assert RingOk(wq.id);
      var cell := ListFirst(wq.queueHead, Entries(wq.queue));
      HasQueued(wq, 0);
      work :| work in works && work.entry == cell;
    }

    /** What the system stands for when all but one queue and one item are as in `s`. */
    lemma AbsOf(s: State, wq: WorkqueueStruct, work: WorkStruct)
      requires Cells() && Owns(wq) && Has(work) && |s.qs| == |qs| && |s.items| == |works|
      requires forall q :: 0 <= q < |qs| && q != wq.id ==> qs[q].Abs() == s.qs[q]
      requires forall i :: 0 <= i < |works| && i != work.id ==> works[i].Abs() == s.items[i]
      ensures Abs() == State(s.qs[wq.id := wq.Abs()], s.items[work.id := work.Abs()], log, clock)
    {
    }

    lemma AbsOfWork(s: State, work: WorkStruct)
      requires Cells() && Has(work) && |s.qs| == |qs| && |s.items| == |works|
      requires forall q :: 0 <= q < |qs| ==> qs[q].Abs() == s.qs[q]
      requires forall i :: 0 <= i < |works| && i != work.id ==> works[i].Abs() == s.items[i]
      ensures Abs() == State(s.qs, s.items[work.id := work.Abs()], log, clock)
    {
    }

    /** Everything but one queue and one item is as in `s`. */
    ghost predicate OthersAs(s: State, wq: WorkqueueStruct, work: WorkStruct)
      reads qs, works
    {
      && |s.qs| == |qs| && |s.items| == |works|
      && (forall q :: 0 <= q < |qs| && q != wq.id ==> qs[q].Abs() == s.qs[q])
      && (forall i :: 0 <= i < |works| && i != work.id ==> works[i].Abs() == s.items[i])
    }

    lemma EnqueuedIs(s: State, wq: WorkqueueStruct, work: WorkStruct, held: Option<nat>)
      requires Cells() && Owns(wq) && Has(work) && OthersAs(s, wq, work) && Accepts(s.qs[wq.id], wq.id, s.items[work.id])
      requires wq.Abs() == s.qs[wq.id].(list := s.qs[wq.id].list + [work.id])
      requires work.Abs() == s.items[work.id].(wq := Some(wq.id), pending := 1,
                               ticket := if held.Some? then held.value else |s.log|, place := s.clock)
      requires log == Enter(s.log, wq.id, work.id, held, s.clock) && clock == s.clock + 1
      ensures Abs() == QueueLocked(s, wq.id, work.id, held)
    {
      AbsOf(s, wq, work);
    }

    lemma TakenIs(s: State, wq: WorkqueueStruct, work: WorkStruct)
      requires Cells() && Owns(wq) && Has(work) && OthersAs(s, wq, work) && Enabled(s, Take(wq.id)) && s.qs[wq.id].list[0] == work.id
      requires var u, w := s.qs[wq.id], s.items[work.id];
        && wq.Abs() == u.(list := u.list[1..], active := u.active + 1, worker := Busy(work.id, w.ticket))
        && work.Abs() == w.(pending := 0, executing := true)
        && log == Mark(s.log, w.ticket, Started) && clock == s.clock
      ensures Abs() == Step(s, Take(wq.id))
    {
      AbsOf(s, wq, work);
    }

    lemma RemovedIs(s: State, wq: WorkqueueStruct, work: WorkStruct)
      requires Cells() && Owns(wq) && Has(work) && OthersAs(s, wq, work)
      requires s.items[work.id].pending == 1 && s.items[work.id].wq == Some(wq.id)
      requires wq.Abs() == s.qs[wq.id].(list := Remove(s.qs[wq.id].list, work.id))
      requires work.Abs() == s.items[work.id].(pending := 0)
      requires log == Mark(s.log, s.items[work.id].ticket, Cancelled) && clock == s.clock
      ensures Abs() == RemovePending(s, work.id)
    {
      hide Remove, Mark;
      AbsOf(s, wq, work);
    }

    lemma AbsAt(wq: WorkqueueStruct, work: WorkStruct)
      requires Cells() && Owns(wq) && Has(work)
      ensures Abs().qs[wq.id] == wq.Abs() && Abs().items[work.id] == work.Abs()
      ensures forall q :: 0 <= q < |qs| ==> qs[q].Abs() == Abs().qs[q]
      ensures forall i :: 0 <= i < |works| ==> works[i].Abs() == Abs().items[i]
    {
    }

    /** The item is marked as pending on the queue, and its entry becomes the last one of the ring. */
    method PutIn(wq: WorkqueueStruct, work: WorkStruct)
      requires Valid() && Owns(wq) && Has(work) && work.pending != 1
      modifies wq`queue, work`wq, work`pending, cells
      ensures Valid() && wq.queue == old(wq.queue) + [work] && work.wq == wq && work.pending == 1
      ensures forall q :: 0 <= q < |qs| && q != wq.id ==> qs[q].Abs() == old(qs[q].Abs())
      ensures forall i :: 0 <= i < |works| && i != work.id ==> works[i].Abs() == old(works[i].Abs())
    {
      hide Rings;
      NotQueued(work);
      work.wq := wq;
      work.pending := 1;
      AddTail(wq, work);
    }

    /** The entry of the k-th item leaves the ring, and the item is pending no longer. */
    method PullOut(wq: WorkqueueStruct, work: WorkStruct, ghost k: nat)
      requires Valid() && Owns(wq) && Has(work) && k < |wq.queue| && wq.queue[k] == work
      modifies wq`queue, work`pending, cells
      ensures Valid() && wq.queue == old(wq.queue)[..k] + old(wq.queue)[k + 1..] && work.pending == 0
      ensures forall q :: 0 <= q < |qs| && q != wq.id ==> qs[q].Abs() == old(qs[q].Abs())
      ensures forall i :: 0 <= i < |works| && i != work.id ==> works[i].Abs() == old(works[i].Abs())
    {
      hide Rings;
      assert work == works[work.id];
      TakeOut(wq, work, k);
      work.pending := 0;
    }

    /** The submission gets its ticket; `s` is the state before the entry joined the list. */
    ghost method GiveTicket(wq: WorkqueueStruct, work: WorkStruct, held: Option<nat>, s: State)
      requires Valid() && Owns(wq) && Has(work) && OthersAs(s, wq, work) && Accepts(s.qs[wq.id], wq.id, s.items[work.id])
      requires wq.Abs() == s.qs[wq.id].(list := s.qs[wq.id].list + [work.id])
      requires work.Abs() == s.items[work.id].(wq := Some(wq.id), pending := 1)
      requires log == s.log && clock == s.clock
      modifies this`log, this`clock, work`ticket, work`place
      ensures Valid() && Abs() == QueueLocked(s, wq.id, work.id, held)
    {
      assert Cells();
      hide Valid, Enter, Accepts, QueueLocked, Abs;
      work.ticket := if held.Some? then held.value else |log|;
      work.place := clock;
      log := Enter(log, wq.id, work.id, held, clock);
      clock := clock + 1;
      EnqueuedIs(s, wq, work, held);
    }

    /** The end of `queue_work_locked`, for an item that the queue accepts. */
    method Enqueue(wq: WorkqueueStruct, work: WorkStruct, ghost held: Option<nat>)
      requires Valid() && Owns(wq) && Has(work) && Accepts(wq.Abs(), wq.id, work.Abs())
      modifies this, wq, work, cells
      ensures Valid() && Abs() == QueueLocked(old(Abs()), wq.id, work.id, held)
      ensures work.pending == 1 && wq.queue == old(wq.queue) + [work]
    {
      ghost var s := Abs();
      AbsAt(wq, work);
      hide Rings, Abs, QueueLocked, Ids;
      PutIn(wq, work);
      hide Valid, Accepts;
      IdsMore(old(wq.queue), work);
      GiveTicket(wq, work, held, s);
    }

    /** `queue_work_locked`; `held` is the ticket of the delayed submission that it completes, if any. */
    method QueueWorkLocked(wq: WorkqueueStruct, work: WorkStruct, ghost held: Option<nat>) returns (queued: bool)
      requires Valid() && Owns(wq) && Has(work) && !wq.freed
      modifies this, wq, work, cells
      ensures Valid() && Abs() == QueueLocked(old(Abs()), wq.id, work.id, held)
      ensures queued <==> Accepts(old(Abs()).qs[wq.id], wq.id, old(Abs()).items[work.id])
      ensures if queued then work.pending == 1 && wq.queue == old(wq.queue) + [work] else wq.queue == old(wq.queue)
    {
      hide Rings, Enter;
      if !wq.running || work.pending != 0 || work.canceling {
        return false;
      }
      if work.executing && work.wq != wq {
        return false;
      }
      Enqueue(wq, work, held);
      queued := true;
    }

    /** `queue_work` inside the lock. */
    method QueueWork(wq: WorkqueueStruct, work: WorkStruct) returns (queued: bool)
      requires Valid() && Owns(wq) && Has(work) && !wq.freed
      modifies this, wq, work, cells
      ensures Valid() && Abs() == Step(old(Abs()), Event.QueueWork(wq.id, work.id))
      ensures queued <==> Welcome(old(Abs()).qs[wq.id], wq.id, old(Abs()).items[work.id])
      ensures queued <==> |log| == |old(log)| + 1
      ensures if queued then work.pending == 1 && wq.queue == old(wq.queue) + [work] else wq.queue == old(wq.queue)
    {
      queued := QueueWorkLocked(wq, work, None);
    }

    /** `queue_delayed_work` with a delay; `armed` says whether `mod_timer` got its call. */
    method QueueDelayedWork(wq: WorkqueueStruct, work: WorkStruct, armed: bool) returns (queued: bool)
      requires Valid() && Owns(wq) && Has(work) && !wq.freed
      modifies this`log, work
      ensures Valid() && Abs() == Step(old(Abs()), QueueDelayed(wq.id, work.id, armed))
      ensures queued <==> armed && Welcome(old(Abs()).qs[wq.id], wq.id, old(Abs()).items[work.id])
      ensures (queued <==> |log| == |old(log)| + 1) && (queued ==> work.pending == 2) && wq.queue == old(wq.queue)
    {
      hide Rings;
      ghost var s := Abs();
      if !wq.running || work.pending != 0 || work.canceling || (work.executing && work.wq != wq) {
        return false;
      }
      work.wq := wq;
      work.pending := 2;
      if !armed {
        work.pending := 0;
      }
      queued := work.pending != 0;
      if queued {
        work.ticket := |log|;
        log := log + [Ticket(wq.id, work.id, true, Waiting, 0)];
      }
      assert Abs() == QueueLater(s, wq.id, work.id, armed);
    }

    /** `rtw88_delayed_work_timer_fn`. */
    method DelayedWorkTimerFn(work: WorkStruct)
      requires Valid() && Inv(Abs()) && Has(work) && Enabled(Abs(), TimerFn(work.id))
      modifies this, work, work.wq, cells
      ensures Valid() && Abs() == Step(old(Abs()), TimerFn(work.id))
    {
      ghost var s := Abs();
      if work.pending == 2 {
        assert ItemOk(s, work.id);
        assert work.wq != null;
        work.pending := 0;
        ghost var n := SetItem(s, work.id, s.items[work.id].(pending := 0));
        assert Abs() == n;
        var queued := QueueWorkLocked(work.wq, work, Some(work.ticket));
        if !queued {
          assert Abs() == n;
          log := Mark(log, work.ticket, Dropped);
          assert Abs() == n.(log := Mark(s.log, work.ticket, Dropped));
        }
      }
    }

    /** The worker notes what it runs; `s` is the state before the entry left its list. */
    method BeginWork(wq: WorkqueueStruct, work: WorkStruct, ghost s: State)
      requires Valid() && Owns(wq) && Has(work) && OthersAs(s, wq, work)
      requires Enabled(s, Take(wq.id)) && s.qs[wq.id].list[0] == work.id
      requires wq.Abs() == s.qs[wq.id].(list := s.qs[wq.id].list[1..]) && work.Abs() == s.items[work.id].(pending := 0)
      requires log == s.log && clock == s.clock
      modifies this`log, wq`active, wq`worker, work`executing
      ensures Valid() && Abs() == Step(s, Take(wq.id))
    {
      assert Cells();
      hide Valid, Mark, Step, Abs;
      work.executing := true;
      wq.active := wq.active + 1;
      wq.worker := Busy(work.id, work.ticket);
      log := Mark(log, work.ticket, Started);
      TakenIs(s, wq, work);
    }

    /** `wq_thread_fn` from the lock to the call of the work function. */
    method WorkerTake(wq: WorkqueueStruct) returns (work: WorkStruct)
      requires Valid() && Owns(wq) && Enabled(Abs(), Take(wq.id))
      modifies this, wq, wq.queue[0], cells
      ensures Valid() && work == old(wq.queue[0]) && Abs() == Step(old(Abs()), Take(wq.id))
    {
      hide Rings, Mark, Step, Ids;
      ghost var s := Abs();
      work := FirstWork(wq);
      AbsAt(wq, work);
      hide Abs;
      PullOut(wq, work, 0);
      hide Valid;
      IdsWithout(old(wq.queue), 0);
      BeginWork(wq, work, s);
    }

    /** `wq_thread_fn` after the work function has returned. */
    method WorkerFinish(wq: WorkqueueStruct, work: WorkStruct)
      requires Valid() && Owns(wq) && Has(work) && Enabled(Abs(), Finish(wq.id))
      requires wq.worker.item == work.id
      modifies this, wq, work
      ensures Valid() && Abs() == Step(old(Abs()), Finish(wq.id))
    {
      hide Rings;
      ghost var s := Abs();
      work.executing := false;
      wq.active := wq.active - 1;
      log := Mark(log, wq.worker.ticket, Ran);
      wq.worker := Looking;
      assert Abs() == Step(s, Finish(wq.id));
    }

    /** `wq_thread_fn` once its loop condition fails. */
    method WorkerEnd(wq: WorkqueueStruct)
      requires Valid() && Owns(wq) && Enabled(Abs(), Event.End(wq.id))
      modifies wq
      ensures Valid() && Abs() == Step(old(Abs()), Event.End(wq.id))
    {
      ghost var s := Abs();
      wq.done := true;
      wq.worker := Ended;
      assert Abs() == Step(s, Event.End(wq.id));
    }

    /** `destroy_workqueue` up to its wait. */
    method DestroyBegin(wq: WorkqueueStruct)
      requires Valid() && Owns(wq) && !wq.freed
      modifies wq
      ensures Valid() && Abs() == Step(old(Abs()), Stop(wq.id))
    {
      ghost var s := Abs();
      wq.running := false;
      wq.destroyers := wq.destroyers + 1;
      assert Abs() == Step(s, Stop(wq.id));
    }

    /** One test of the wait loop of `destroy_workqueue`; once it is left the record is freed. */
    method DestroyTest(wq: WorkqueueStruct) returns (over: bool)
      requires Valid() && Owns(wq) && !wq.freed && wq.destroyers > 0
      modifies wq
      ensures Valid() && (over <==> Enabled(old(Abs()), Free(wq.id)))
      ensures Abs() == if over then Step(old(Abs()), Free(wq.id)) else old(Abs())
    {
      ghost var s := Abs();
      if !wq.done {
        over := false;   // IOLockSleep
      } else {
        over := true;
        wq.destroyers := wq.destroyers - 1;
        wq.freed := true;
        assert Abs() == Step(s, Free(wq.id));
      }
    }

    /** One test of the wait loop of `flush_workqueue`. */
    method FlushQueueTest(wq: WorkqueueStruct) returns (over: bool)
      requires Valid() && Owns(wq) && !wq.freed
      ensures over <==> Flushed(Abs(), wq.id)
    {
      assert RingOk(wq.id);
      var empty := ListEmpty(wq.queueHead, Entries(wq.queue));
      over := empty && wq.active == 0;
    }

    /** A work item that says it is listed is on its queue's list. */
    ghost predicate Listed(work: WorkStruct)
      reads work, work.wq
    {
      work.pending == 1 ==> work.wq != null && work.id in Ids(work.wq.queue)
    }

    lemma ListedHolds(work: WorkStruct)
      requires Valid() && Inv(Abs()) && Has(work)
      ensures Listed(work)
    {
      assert ItemOk(Abs(), work.id);
      assert work.pending == 1 ==> Abs().qs[work.wq.id].list == Ids(work.wq.queue);
    }

    /** `remove_pending_work`. */
    method RemovePendingWork(work: WorkStruct) returns (pending: bool)
      requires Valid() && Listed(work) && Has(work)
      modifies this`log, work, work.wq, cells
      ensures Valid() && Abs() == RemovePending(old(Abs()), work.id)
      ensures pending <==> old(work.pending) != 0
    {
      hide Mark, Rings;
      pending := work.pending != 0;
      if work.pending == 1 {
        RemoveListed(work);
      } else {
        ghost var s := Abs();
        assert s.items[work.id] == work.Abs();
        work.pending := 0;
        if pending {
          log := Mark(log, work.ticket, Cancelled);
        }
        AbsOfWork(s, work);
      }
    }

    method RemoveListed(work: WorkStruct)
      requires Valid() && Listed(work) && Has(work) && work.pending == 1
      modifies this`log, work, work.wq, cells
      ensures Valid() && Abs() == RemovePending(old(Abs()), work.id)
    {
      hide Mark, Rings, Remove, IndexOf, RemovePending, Ids;
      ghost var s := Abs();
      var wq := work.wq;
      ghost var k := IndexOf(Ids(wq.queue), work.id);
      AbsAt(wq, work);
      HasQueued(wq, k);
      hide Abs;
      PullOut(wq, work, k);
      assert Cells();
      hide Valid;
      log := Mark(log, work.ticket, Cancelled);
      IdsWithout(old(wq.queue), k);
      RemovedIs(s, wq, work);
    }

    method MarkCanceling(work: WorkStruct)
      requires Valid() && Has(work)
      modifies work`canceling
      ensures Valid() && Abs() == SetItem(old(Abs()), work.id, old(Abs()).items[work.id].(canceling := true))
    {
      ghost var s := Abs();
      work.canceling := true;
      assert Abs() == SetItem(s, work.id, s.items[work.id].(canceling := true));
    }

    ghost method AddCanceller(work: WorkStruct, delayed: bool)
      requires Valid() && Has(work)
      modifies work`atTimer, work`atWait
      ensures Valid()
      ensures var w := old(Abs()).items[work.id];
        Abs() == SetItem(old(Abs()), work.id, if delayed then w.(atTimer := w.atTimer + 1) else w.(atWait := w.atWait + 1))
    {
      ghost var s := Abs();
      ghost var w := s.items[work.id];
      if delayed {
        work.atTimer := work.atTimer + 1;
      } else {
        work.atWait := work.atWait + 1;
      }
      assert Abs() == SetItem(s, work.id, if delayed then w.(atTimer := w.atTimer + 1) else w.(atWait := w.atWait + 1));
    }

    method MarkAndRemove(work: WorkStruct, delayed: bool) returns (pending: bool)
      requires Valid() && Listed(work) && Has(work)
      modifies this`log, work, work.wq, cells
      ensures Valid() && Abs() == BeginCancel(old(Abs()), work.id, delayed)
      ensures pending <==> old(work.pending) != 0
    {
      ghost var s := Abs();
      MarkCanceling(work);
      pending := RemovePendingWork(work);
      AddCanceller(work, delayed);
      hide RemovePending, BeginCancel;
      MarkCommutes(s, work.id, delayed);
    }

    /** `cancel_work_sync` and `cancel_delayed_work_sync` up to the wait and to the deletion of the timer. */
    method CancelSyncBegin(work: WorkStruct, delayed: bool) returns (pending: bool)
      requires Valid() && Inv(Abs()) && Has(work)
      modifies this`log, work, work.wq, cells
      ensures Valid()
      ensures var e := if delayed then CancelDelayedSync(work.id) else CancelWorkSync(work.id);
        Enabled(old(Abs()), e) && Abs() == Step(old(Abs()), e)
      ensures pending <==> old(work.pending) != 0
    {
      CancelsEnabled(Abs(), work.id);
      ListedHolds(work);
      hide BeginCancel, Enabled, Inv, Valid;
      pending := MarkAndRemove(work, delayed);
    }

    /** `cancel_delayed_work_sync` after `del_timer_sync` has returned. */
    ghost method CancelDelayedTimerGone(work: WorkStruct)
      requires Valid() && Has(work) && work.atTimer > 0
      modifies work`atTimer, work`atWait
      ensures Valid() && Abs() == Step(old(Abs()), TimerGone(work.id))
    {
      ghost var s := Abs();
      work.atTimer := work.atTimer - 1;
      work.atWait := work.atWait + 1;
      assert Abs() == Step(s, TimerGone(work.id));
    }

    /** One test of the wait loop of a sync canceller; `done` says that it is left. */
    method CancelSyncTest(work: WorkStruct) returns (done: bool)
      requires Valid() && Has(work) && work.atWait > 0
      modifies work
      ensures Valid() && (done <==> Enabled(old(Abs()), CancelReturns(work.id)))
      ensures Abs() == if done then Step(old(Abs()), CancelReturns(work.id)) else old(Abs())
    {
      ghost var s := Abs();
      if work.executing {
        done := false;   // IOLockSleep
      } else {
        work.canceling := false;
        work.atWait := work.atWait - 1;
        done := true;
        assert Abs() == Step(s, CancelReturns(work.id));
      }
    }

    /** `cancel_delayed_work`, its timer apart. */
    method CancelDelayedWork(work: WorkStruct) returns (pending: bool)
      requires Valid() && Inv(Abs()) && Has(work)
      modifies this`log, work, work.wq, cells
      ensures Valid()
      ensures Enabled(old(Abs()), CancelDelayed(work.id)) && Abs() == Step(old(Abs()), CancelDelayed(work.id))
      ensures pending <==> old(work.pending) != 0
    {
      CancelsEnabled(Abs(), work.id);
      hide Enabled, TouchesFreed;
      ListedHolds(work);
      pending := RemovePendingWork(work);
    }
  }
}
