/**
 The intrusive circular list that carries the work queues.  A list is its head followed by
 its entries; `Ring` says that the links of exactly these cells spell that sequence.
 */
module IntrusiveList {
  class ListHead {
    var next: ListHead?
    var prev: ListHead?

    /** `INIT_LIST_HEAD`. */
    constructor ()
      ensures Ring([this])
    {
      next := this;
      prev := this;
    }

    method Init()
      modifies this
      ensures Ring([this])
    {
      next := this;
      prev := this;
    }
  }

  function Succ(n: nat, k: nat): nat { if k + 1 < n then k + 1 else 0 }

  /** The k-th cell and the one after it, going round, point at each other. */
  ghost predicate Linked(cells: seq<ListHead>, k: nat)
    requires k < |cells|
    reads cells
  {
    cells[k].next == cells[Succ(|cells|, k)] && cells[Succ(|cells|, k)].prev == cells[k]
  }

  ghost predicate Distinct(cells: seq<ListHead>) {
    forall j, k :: 0 <= j < k < |cells| ==> cells[j] != cells[k]
  }

  /** `cells[0]` is the list head, the rest are its entries in order. */
  ghost predicate Ring(cells: seq<ListHead>)
    reads cells
  {
    0 < |cells| && Distinct(cells) && forall k :: 0 <= k < |cells| ==> Linked(cells, k)
  }

  /** A ring whose cells nobody writes stays a ring. */
  twostate lemma RingStays(cells: seq<ListHead>)
    requires old(Ring(cells))
    requires forall k :: 0 <= k < |cells| ==> cells[k].next == old(cells[k].next) && cells[k].prev == old(cells[k].prev)
    ensures Ring(cells)
  {
    forall k | 0 <= k < |cells| ensures Linked(cells, k) {
      assert old(Linked(cells, k));
    }
  }

  /** `list_empty`. */
  method ListEmpty(head: ListHead, ghost entries: seq<ListHead>) returns (empty: bool)
    requires Ring([head] + entries)
    ensures empty <==> entries == []
  {
    assert Linked([head] + entries, 0);
    empty := head.next == head;
  }

  /** `list_first_entry` of a list that is not empty. */
  method ListFirst(head: ListHead, ghost entries: seq<ListHead>) returns (first: ListHead)
    requires Ring([head] + entries) && entries != []
    ensures first == entries[0]
  {
    assert Linked([head] + entries, 0);
    first := head.next;
  }

  /** `__list_add`. */
  method ListLink(n: ListHead, prev: ListHead, next: ListHead)
    modifies n, prev, next
    ensures n != next && n != prev ==> n.next == next && n.prev == prev
    ensures n != next && n != prev ==> next.prev == n && prev.next == n
    ensures next != prev && n != next ==> next.next == old(next.next)
    ensures next != prev && n != prev ==> prev.prev == old(prev.prev)
  {
    next.prev := n;
    n.next := next;
    n.prev := prev;
    prev.next := n;
  }

  /** `list_add_tail`: the new entry becomes the last one. */
  method ListAddTail(n: ListHead, head: ListHead, ghost entries: seq<ListHead>)
    requires Ring([head] + entries)
    requires n !in [head] + entries
    modifies n, [head] + entries
    ensures Ring([head] + (entries + [n]))
  {
    ghost var cells := [head] + entries;
    ghost var more := [head] + (entries + [n]);
    assert more == cells + [n];
    assert Linked(cells, |cells| - 1);
    label before:
    ListLink(n, head.prev, head);
    forall k | 0 <= k < |more| ensures Linked(more, k) {
      assert k < |cells| ==> old@before(Linked(cells, k));
    }
  }

  /** Where the cells that stay were before the k-th entry, cell k + 1, left. */
  function Before(k: nat, j: nat): nat { if j <= k then j else j + 1 }

  lemma SuccAfterRemoval(n: nat, k: nat, j: nat)
    requires k + 1 < n && j < n - 1
    ensures Succ(n - 1, j) < n - 1 && Succ(n, Before(k, j)) < n
    ensures Before(k, Succ(n - 1, j)) == if j == k then Succ(n, k + 1) else Succ(n, Before(k, j))
    ensures j != k ==> Succ(n, Before(k, j)) != k + 1 && Succ(n, Before(k, j)) != Succ(n, k + 1)
  {
  }

  /** `list_del` of the k-th entry leaves the others in their order. */
  method ListDel(entry: ListHead, head: ListHead, ghost entries: seq<ListHead>, ghost k: nat)
    requires Ring([head] + entries) && k < |entries| && entries[k] == entry
    modifies [head] + entries
    ensures Ring([head] + (entries[..k] + entries[k + 1..]))
    ensures entry.next == null && entry.prev == null
  {
    ghost var cells := [head] + entries;
    ghost var n := |cells|;
    ghost var rest := [head] + (entries[..k] + entries[k + 1..]);
    assert forall j :: 0 <= j < |rest| ==> rest[j] == cells[Before(k, j)];
    assert cells[k + 1] == entry;
    assert Linked(cells, k) && Linked(cells, k + 1);
    label linked:
    entry.prev.next := entry.next;
    entry.next.prev := entry.prev;
    entry.next := null;
    entry.prev := null;
    forall j | 0 <= j < |rest| ensures Linked(rest, j) {
      assert old@linked(Linked(cells, Before(k, j)));
      SuccAfterRemoval(n, k, j);
    }
  }

  /** `list_del_init`: the removed entry ends as an empty list of its own. */
  method ListDelInit(entry: ListHead, head: ListHead, ghost entries: seq<ListHead>, ghost k: nat)
    requires Ring([head] + entries) && k < |entries| && entries[k] == entry
    modifies [head] + entries
    ensures Ring([head] + (entries[..k] + entries[k + 1..]))
    ensures Ring([entry])
  {
    ListDel(entry, head, entries, k);
    ghost var rest := [head] + (entries[..k] + entries[k + 1..]);
    ghost var cells := [head] + entries;
    assert forall j :: 0 <= j < |rest| ==> rest[j] == cells[Before(k, j)];
    assert cells[k + 1] == entry;
    label removed:
    entry.Init();
    forall j | 0 <= j < |rest| ensures Linked(rest, j) {
      assert old@removed(Linked(rest, j));
    }
  }
}
