/** The deadline index of the ledger: a tree of minima over reusable leaf slots (`_MinimumBySeq` in
    app/d7_round_ledger.py). */
module DeadlineIndexes {
  import opened Wrappers

  function Earlier(a: Option<int>, b: Option<int>): (r: Option<int>)
    ensures r == a || r == b
    ensures a.Some? ==> r.Some? && r.value <= a.value
    ensures b.Some? ==> r.Some? && r.value <= b.value
  {
    match (a, b)
    case (None, _) => b
    case (_, None) => a
    case (Some(x), Some(y)) => if x <= y then a else b
  }

  predicate Due(d: Option<int>, limit: int) { d.Some? && d.value <= limit }

  // ---- The tree ----

  predicate NodeOk(data: seq<Option<int>>, p: nat)
    requires 1 <= p && 2 * p + 1 < |data|
  {
    data[p] == Earlier(data[2 * p], data[2 * p + 1])
  }

  /** Every inner node except perhaps `q` is the earlier of its two children. */
  predicate TreeOkBut(data: seq<Option<int>>, size: nat, q: nat) {
    |data| == 2 * size && forall p :: 1 <= p < size && p != q ==> NodeOk(data, p)
  }

  predicate TreeOk(data: seq<Option<int>>, size: nat) { TreeOkBut(data, size, 0) }

  predicate Pow2(w: nat) { w == 1 || (w > 1 && w % 2 == 0 && Pow2(w / 2)) }

  /** The smallest power of two that is not below the capacity. */
  function SizeFor(capacity: nat): (size: nat)
    requires capacity >= 1
    ensures Pow2(size) && capacity <= size < 2 * capacity
  {
    if capacity == 1 then 1 else 2 * SizeFor((capacity + 1) / 2)
  }

  /** The leaves under `pos` are the `width` leaves from `pos * width` on. */
  predicate Covers(size: nat, pos: nat, width: nat) {
    Pow2(width) && size <= pos * width && (pos + 1) * width <= 2 * size
  }

  lemma ChildrenCover(size: nat, pos: nat, width: nat)
    requires 1 <= pos < size && Covers(size, pos, width)
    ensures width >= 2 && Covers(size, 2 * pos, width / 2) && Covers(size, 2 * pos + 1, width / 2)
    ensures 2 * pos * (width / 2) == pos * width && (2 * pos + 1) * (width / 2) == pos * width + width / 2
    ensures 2 * (width / 2) == width
  {
    assert width == 1 ==> pos * width == pos;
    var half := width / 2;
    assert 2 * pos * half == pos * width by { assert width == 2 * half; }
    assert (2 * pos + 1) * half == 2 * pos * half + half;
    assert (2 * pos + 2) * half == pos * width + width by { assert (2 * pos + 2) * half == 2 * pos * half + 2 * half; }
    assert (pos + 1) * width == pos * width + width;
    assert (2 * pos + 1 + 1) * half == (2 * pos + 2) * half;
  }

  lemma LeafCovers(size: nat, pos: nat, width: nat)
    requires size <= pos < 2 * size && Covers(size, pos, width)
    ensures width == 1 && pos * width == pos
  {
    assert (pos + 1) * width == 2 * (pos + 1) + (pos + 1) * (width - 2);
    assert width >= 2 ==> (pos + 1) * (width - 2) >= 0;
    assert width == 1 ==> pos * width == pos;
  }

  /** A node is the earliest of the leaves under it: none is earlier, and when it is empty all are. */
  lemma {:induction false} NodeIsMinimum(data: seq<Option<int>>, size: nat, pos: nat, width: nat, leaf: nat)
    requires TreeOk(data, size) && 1 <= pos < 2 * size && Covers(size, pos, width)
    requires pos * width <= leaf < (pos + 1) * width && leaf < |data|
    ensures data[leaf].Some? ==> data[pos].Some? && data[pos].value <= data[leaf].value
    decreases width
  {
    if pos >= size {
      LeafCovers(size, pos, width);
    } else {
      ChildrenCover(size, pos, width);
      assert NodeOk(data, pos);
      assert (pos + 1) * width == pos * width + width;
      assert (2 * pos + 1) * (width / 2) == pos * width + width / 2;
      assert (2 * pos + 2) * (width / 2) == pos * width + width by {
        assert (2 * pos + 2) * (width / 2) == (2 * pos + 1) * (width / 2) + width / 2;
      }
      if leaf < pos * width + width / 2 {
        NodeIsMinimum(data, size, 2 * pos, width / 2, leaf);
      } else {
        NodeIsMinimum(data, size, 2 * pos + 1, width / 2, leaf);
      }
    }
  }

  // ---- The slots ----

  predicate Distinct(s: seq<nat>) { forall i, j :: 0 <= i < j < |s| ==> s[i] != s[j] }

  /** Used and freed slots partition the slots handed out so far. */
  predicate SlotsOk(slots: map<nat, nat>, seqs: seq<Option<nat>>, free: seq<nat>, nextSlot: nat) {
    && (forall s :: s in slots ==> slots[s] < |seqs| && seqs[slots[s]] == Some(s))
    && (forall j :: 0 <= j < |seqs| && seqs[j].Some? ==>
          j < nextSlot && seqs[j].value in slots && slots[seqs[j].value] == j)
    && (forall j :: j in free ==> j < |seqs| && j < nextSlot && seqs[j].None?)
    && (forall j :: 0 <= j < |seqs| && j < nextSlot && seqs[j].None? ==> j in free)
    && Distinct(free)
    && |slots| + |free| == if nextSlot <= |seqs| then nextSlot else |seqs|
  }

  /** A slot that holds no number holds no deadline. */
  predicate LeavesOk(leaves: seq<Option<int>>, seqs: seq<Option<nat>>) {
    |leaves| == |seqs| && forall j :: 0 <= j < |seqs| && seqs[j].None? ==> leaves[j].None?
  }

  predicate SlotsFit(slots: map<nat, nat>, size: nat) { forall n :: n in slots ==> slots[n] < size }

  /** The deadlines by sequence number. */
  function DeadlinesOf(leaves: seq<Option<int>>, slots: map<nat, nat>): map<nat, int>
    requires SlotsFit(slots, |leaves|)
  {
    map n | n in slots && leaves[slots[n]].Some? :: leaves[slots[n]].value
  }

  // ---- Which slot a number gets ----

  /** Who holds which slot, the freed slots as a stack, and the next slot never handed out. */
  datatype Book = Book(held: map<nat, nat>, free: seq<nat>, next: nat)

  const EMPTY_BOOK := Book(map[], [], 0)

  /** The slot freed last is handed out first. */
  function SlotFor(b: Book): nat { if b.free != [] then b.free[|b.free| - 1] else b.next }

  function Handed(b: Book, n: nat): Book {
    if b.free != [] then b.(held := b.held[n := SlotFor(b)], free := b.free[..|b.free| - 1])
    else b.(held := b.held[n := SlotFor(b)], next := b.next + 1)
  }

  datatype Op = ScheduleOp(n: nat) | ReserveOp(n: nat) | CancelOp(n: nat)

  function Apply(b: Book, op: Op, size: nat): Book {
    match op
    case ScheduleOp(n) => if n in b.held || SlotFor(b) >= size then b else Handed(b, n)
    case ReserveOp(n) =>
      if n in b.held then b else if SlotFor(b) >= size then b.(next := b.next + 1) else Handed(b, n)
    case CancelOp(n) => if n in b.held then b.(held := b.held - {n}, free := b.free + [b.held[n]]) else b
  }

  function BookAfter(ops: seq<Op>, size: nat): Book
    decreases |ops|
  {
    if ops == [] then EMPTY_BOOK else Apply(BookAfter(ops[..|ops| - 1], size), ops[|ops| - 1], size)
  }

  // ---- What an operation does to the slots ----

  lemma TakeFreed(slots: map<nat, nat>, seqs: seq<Option<nat>>, free: seq<nat>, nextSlot: nat, n: nat)
    requires SlotsOk(slots, seqs, free, nextSlot) && n !in slots && |free| > 0
    ensures var slot := free[|free| - 1];
            && slot < |seqs| && seqs[slot].None?
            && SlotsOk(slots[n := slot], seqs[slot := Some(n)], free[..|free| - 1], nextSlot)
            && |slots| < |seqs|
  {
    var slot := free[|free| - 1];
    var rest := free[..|free| - 1];
    assert slot in free;
    LastIsGone(free);
    var slots', seqs' := slots[n := slot], seqs[slot := Some(n)];
    forall j | 0 <= j < |seqs'| && j < nextSlot && seqs'[j].None? ensures j in rest {
      assert j != slot && seqs[j].None? && j in free;
    }
    forall j | j in rest ensures j < |seqs'| && j < nextSlot && seqs'[j].None? {
      assert j in free && j != slot;
    }
    assert |slots'| == |slots| + 1;
  }

  /** A stack without its top. */
  lemma LastIsGone(free: seq<nat>)
    requires Distinct(free) && |free| > 0
    ensures Distinct(free[..|free| - 1])
    ensures forall j :: j in free[..|free| - 1] <==> j in free && j != free[|free| - 1]
  {
    var rest, last := free[..|free| - 1], free[|free| - 1];
    assert free == rest + [last];
    assert last !in rest;
  }

  lemma TakeNext(slots: map<nat, nat>, seqs: seq<Option<nat>>, nextSlot: nat, n: nat)
    requires SlotsOk(slots, seqs, [], nextSlot) && n !in slots && nextSlot < |seqs|
    ensures SlotsOk(slots[n := nextSlot], seqs[nextSlot := Some(n)], [], nextSlot + 1)
    ensures seqs[nextSlot].None? && |slots| < |seqs|
  {
  }

  lemma NoneLeft(slots: map<nat, nat>, seqs: seq<Option<nat>>, nextSlot: nat)
    requires SlotsOk(slots, seqs, [], nextSlot) && nextSlot >= |seqs|
    ensures |slots| == |seqs| && SlotsOk(slots, seqs, [], nextSlot + 1)
  {
  }

  lemma Freed(slots: map<nat, nat>, seqs: seq<Option<nat>>, free: seq<nat>, nextSlot: nat, n: nat)
    requires SlotsOk(slots, seqs, free, nextSlot) && n in slots
    ensures |free| < |seqs| && slots[n] < |seqs|
    ensures SlotsOk(slots - {n}, seqs[slots[n] := None], free + [slots[n]], nextSlot)
  {
    var slot := slots[n];
    assert |slots - {n}| == |slots| - 1 by {
      assert slots == (slots - {n})[n := slot];
    }
    assert slot !in free;
  }

  lemma SlotsAreFit(slots: map<nat, nat>, seqs: seq<Option<nat>>, free: seq<nat>, nextSlot: nat)
    requires SlotsOk(slots, seqs, free, nextSlot)
    ensures SlotsFit(slots, |seqs|)
    ensures forall m, n :: m in slots && n in slots && slots[m] == slots[n] ==> m == n
    ensures forall n :: n in slots ==> seqs[slots[n]] == Some(n)
  {
  }

  lemma ScheduledDeadlines(leaves: seq<Option<int>>, slots: map<nat, nat>, n: nat, d: int)
    requires SlotsFit(slots, |leaves|) && n in slots
    requires forall m :: m in slots && slots[m] == slots[n] ==> m == n
    ensures DeadlinesOf(leaves[slots[n] := Some(d)], slots) == DeadlinesOf(leaves, slots)[n := d]
  {
  }

  lemma CancelledDeadlines(leaves: seq<Option<int>>, slots: map<nat, nat>, n: nat)
    requires SlotsFit(slots, |leaves|) && n in slots
    requires forall m :: m in slots && slots[m] == slots[n] ==> m == n
    ensures SlotsFit(slots - {n}, |leaves|)
    ensures DeadlinesOf(leaves[slots[n] := None], slots - {n}) == DeadlinesOf(leaves, slots) - {n}
  {
  }

  lemma ReservedDeadlines(leaves: seq<Option<int>>, slots: map<nat, nat>, n: nat, slot: nat)
    requires SlotsFit(slots, |leaves|) && n !in slots && slot < |leaves| && leaves[slot].None?
    ensures SlotsFit(slots[n := slot], |leaves|)
    ensures DeadlinesOf(leaves, slots[n := slot]) == DeadlinesOf(leaves, slots)
  {
  }

  lemma LeafWritten(data: seq<Option<int>>, size: nat, leaf: nat, value: Option<int>)
    requires TreeOk(data, size) && size <= leaf < 2 * size
    ensures TreeOkBut(data[leaf := value], size, leaf / 2)
    ensures data[leaf := value][size..] == data[size..][leaf - size := value]
  {
    var now := data[leaf := value];
    forall p | 1 <= p < size && p != leaf / 2 ensures NodeOk(now, p) {
      assert NodeOk(data, p);
    }
  }

  /** Repairing one node leaves only the node above it in doubt, or none if the node was already right. */
  lemma NodeWritten(data: seq<Option<int>>, size: nat, pos: nat, least: Option<int>)
    requires 1 <= pos < size && TreeOkBut(data, size, pos) && least == Earlier(data[2 * pos], data[2 * pos + 1])
    ensures TreeOkBut(data[pos := least], size, pos / 2)
    ensures data[pos := least][size..] == data[size..]
    ensures data[pos] == least ==> TreeOk(data, size)
  {
    var now := data[pos := least];
    forall p | 1 <= p < size && p != pos / 2 ensures NodeOk(now, p) {
      assert p != pos ==> NodeOk(data, p);
    }
    if data[pos] == least {
      forall p | 1 <= p < size ensures NodeOk(data, p) {
        assert p != pos ==> NodeOk(data, p);
      }
    }
  }

  // ---- What a walk yields and leaves ----

  predicate Listed(leaves: seq<Option<int>>, seqs: seq<Option<nat>>, j: nat, limit: int)
    requires j < |leaves| == |seqs|
  {
    Due(leaves[j], limit) && seqs[j].Some?
  }

  /** The numbers that are due among the leaves from `lo` to `hi`, in the order of their slots. */
  function DueSlots(leaves: seq<Option<int>>, seqs: seq<Option<nat>>, lo: nat, hi: nat, limit: int): seq<nat>
    requires lo <= hi <= |leaves| == |seqs|
    decreases hi - lo
  {
    if lo == hi then []
    else DueSlots(leaves, seqs, lo, hi - 1, limit)
         + if Listed(leaves, seqs, hi - 1, limit) then [seqs[hi - 1].value] else []
  }

  /** The consumer deletes this slot's entry when it is yielded. */
  predicate Dropped(leaves: seq<Option<int>>, seqs: seq<Option<nat>>, lo: nat, hi: nat, limit: int, drop: nat -> bool,
                    j: nat)
    requires j < |leaves| == |seqs|
  {
    lo <= j < hi && Listed(leaves, seqs, j, limit) && drop(seqs[j].value)
  }

  /** What is left of the leaves and of the slots' numbers once the range from `lo` to `hi` has been walked. */
  ghost predicate Swept(leaves: seq<Option<int>>, seqs: seq<Option<nat>>, lo: nat, hi: nat, limit: int,
                        drop: nat -> bool,
                        leaves': seq<Option<int>>, seqs': seq<Option<nat>>) {
    && |leaves'| == |seqs'| == |leaves| == |seqs|
    && forall j :: 0 <= j < |leaves| ==>
         if Dropped(leaves, seqs, lo, hi, limit, drop, j) then leaves'[j] == None && seqs'[j] == None
         else leaves'[j] == leaves[j] && seqs'[j] == seqs[j]
  }

  lemma {:induction false} DueSlotsSplit(leaves: seq<Option<int>>, seqs: seq<Option<nat>>, lo: nat, mid: nat, hi: nat,
                                         limit: int)
    requires lo <= mid <= hi <= |leaves| == |seqs|
    ensures DueSlots(leaves, seqs, lo, hi, limit)
            == DueSlots(leaves, seqs, lo, mid, limit) + DueSlots(leaves, seqs, mid, hi, limit)
    decreases hi - mid
  {
    if mid < hi {
      DueSlotsSplit(leaves, seqs, lo, mid, hi - 1, limit);
    }
  }

  /** Only the range itself matters. */
  lemma {:induction false} DueSlotsLocal(leaves: seq<Option<int>>, seqs: seq<Option<nat>>, leaves': seq<Option<int>>,
                                         seqs': seq<Option<nat>>, lo: nat, hi: nat, limit: int)
    requires lo <= hi <= |leaves| == |seqs| == |leaves'| == |seqs'|
    requires forall j :: lo <= j < hi ==> leaves'[j] == leaves[j] && seqs'[j] == seqs[j]
    ensures DueSlots(leaves', seqs', lo, hi, limit) == DueSlots(leaves, seqs, lo, hi, limit)
    decreases hi - lo
  {
    if lo < hi {
      DueSlotsLocal(leaves, seqs, leaves', seqs', lo, hi - 1, limit);
    }
  }

  lemma {:induction false} NothingDue(leaves: seq<Option<int>>, seqs: seq<Option<nat>>, lo: nat, hi: nat, limit: int)
    requires lo <= hi <= |leaves| == |seqs| && forall j :: lo <= j < hi ==> !Due(leaves[j], limit)
    ensures DueSlots(leaves, seqs, lo, hi, limit) == []
    decreases hi - lo
  {
    if lo < hi {
      NothingDue(leaves, seqs, lo, hi - 1, limit);
    }
  }

  lemma SweptTwice(leaves: seq<Option<int>>, seqs: seq<Option<nat>>, lo: nat, mid: nat, hi: nat, limit: int,
                   drop: nat -> bool, leaves1: seq<Option<int>>, seqs1: seq<Option<nat>>,
                   leaves2: seq<Option<int>>, seqs2: seq<Option<nat>>)
    requires lo <= mid <= hi <= |leaves| == |seqs|
    requires Swept(leaves, seqs, lo, mid, limit, drop, leaves1, seqs1)
    requires Swept(leaves1, seqs1, mid, hi, limit, drop, leaves2, seqs2)
    ensures Swept(leaves, seqs, lo, hi, limit, drop, leaves2, seqs2)
    ensures DueSlots(leaves1, seqs1, mid, hi, limit) == DueSlots(leaves, seqs, mid, hi, limit)
  {
    DueSlotsLocal(leaves, seqs, leaves1, seqs1, mid, hi, limit);
  }

  /** A subtree whose root is not due has no leaf that is. */
  lemma NotDueBelow(data: seq<Option<int>>, size: nat, pos: nat, width: nat, limit: int)
    requires TreeOk(data, size) && 1 <= pos < 2 * size && Covers(size, pos, width) && !Due(data[pos], limit)
    ensures forall j :: pos * width - size <= j < (pos + 1) * width - size ==> !Due(data[size..][j], limit)
  {
    forall j | pos * width - size <= j < (pos + 1) * width - size ensures !Due(data[size..][j], limit) {
      NodeIsMinimum(data, size, pos, width, size + j);
      assert data[size..][j] == data[size + j];
    }
  }

  lemma OneLeaf(leaves: seq<Option<int>>, seqs: seq<Option<nat>>, j: nat, limit: int)
    requires j < |leaves| == |seqs|
    ensures DueSlots(leaves, seqs, j, j + 1, limit) == if Listed(leaves, seqs, j, limit) then [seqs[j].value] else []
  {
    assert DueSlots(leaves, seqs, j, j, limit) == [];
  }

  // ---- The index ----

  class DeadlineIndex {
    const size: nat
    const data: array<Option<int>>
    const seqs: array<Option<nat>>
    const free: array<nat>
    var slots: map<nat, nat>
    var freeCount: nat
    var nextSlot: nat

    ghost predicate Shape()
      reads this
    {
      && data != seqs && seqs.Length == size && free.Length == size && data.Length == 2 * size && freeCount <= size
      && Pow2(size)
    }

    ghost predicate Valid()
      reads this, data, seqs, free
    {
      && Shape() && TreeOk(data[..], size)
      && SlotsOk(slots, seqs[..], free[..freeCount], nextSlot) && LeavesOk(data[size..], seqs[..])
    }

    ghost function Slots(): Book
      reads this, free
      requires freeCount <= free.Length
    {
      Book(slots, free[..freeCount], nextSlot)
    }

    ghost function Deadlines(): map<nat, int>
      reads this, data, seqs, free
      requires Valid()
    {
      SlotsAreFit(slots, seqs[..], free[..freeCount], nextSlot);
      DeadlinesOf(data[size..], slots)
    }

    constructor (capacity: nat)
      requires capacity >= 1
      ensures Valid() && Deadlines() == map[] && Slots() == EMPTY_BOOK && size == SizeFor(capacity)
      ensures fresh(data) && fresh(seqs) && fresh(free)
    {
      var size := SizeFor(capacity);
      this.size := size;
      data := new Option<int>[2 * size](_ => None);
      seqs := new Option<nat>[size](_ => None);
      free := new nat[size](_ => 0);
      slots, freeCount, nextSlot := map[], 0, 0;
    }

    /** Writes a leaf and repairs the nodes above it, stopping at the first that is already right. */
    method Write(slot: nat, value: Option<int>)
      requires Shape() && TreeOk(data[..], size) && slot < size
      modifies data
      ensures TreeOk(data[..], size)
      ensures data[size..] == old(data[size..])[slot := value]
    {
      hide NodeOk;
      ghost var before := data[..];
      LeafWritten(before, size, size + slot, value);
      data[size + slot] := value;
      assert data[..] == before[size + slot := value];
      var pos := (size + slot) / 2;
      while pos != 0
        invariant 0 <= pos < size || pos == 0
        invariant TreeOkBut(data[..], size, pos)
        invariant data[size..] == before[size..][slot := value]
      {
        var least := Earlier(data[2 * pos], data[2 * pos + 1]);
        NodeWritten(data[..], size, pos, least);
        if data[pos] == least {
          return;
        }
        ghost var was := data[..];
        data[pos] := least;
        assert data[..] == was[pos := least];
        pos := pos / 2;
      }
    }

    /** A slot for a number that has none: one that was freed, or the next fresh one if there is any. */
    method Allocate(n: nat) returns (ok: bool, slot: nat)
      requires Shape() && SlotsOk(slots, seqs[..], free[..freeCount], nextSlot) && n !in slots
      modifies this`slots, this`freeCount, this`nextSlot, seqs
      ensures Shape() && SlotsOk(slots, seqs[..], free[..freeCount], nextSlot)
      ensures ok <==> |old(slots)| < size
      ensures ok ==> slot == SlotFor(old(Slots())) < size && Slots() == Handed(old(Slots()), n)
                     && slots == old(slots)[n := slot] && old(seqs[..])[slot].None?
                     && seqs[..] == old(seqs[..])[slot := Some(n)]
      ensures !ok ==> Slots() == old(Slots()) && slots == old(slots) && seqs[..] == old(seqs[..]) && freeCount == 0
                      && nextSlot == SlotFor(old(Slots())) >= size
    {
      hide SlotsOk, Pow2;
      ghost var was := seqs[..];
      if freeCount > 0 {
        TakeFreed(slots, seqs[..], free[..freeCount], nextSlot, n);
        slot := free[freeCount - 1];
        assert free[..freeCount][freeCount - 1] == slot;
        assert free[..freeCount - 1] == free[..freeCount][..freeCount - 1];
        freeCount := freeCount - 1;
      } else {
        slot := nextSlot;
        assert free[..freeCount] == [];
        if slot >= size {
          NoneLeft(slots, seqs[..], nextSlot);
          return false, slot;
        }
        TakeNext(slots, seqs[..], nextSlot, n);
        nextSlot := nextSlot + 1;
      }
      slots := slots[n := slot];
      seqs[slot] := Some(n);
      assert seqs[..] == was[slot := Some(n)];
      ok := true;
    }

    /** Gives a number a slot that holds no deadline yet. */
    method Admit(n: nat) returns (ok: bool)
      requires Valid() && n !in slots
      modifies this`slots, this`freeCount, this`nextSlot, seqs
      ensures Valid() && Deadlines() == old(Deadlines())
      ensures ok <==> |old(slots)| < size
      ensures slots.Keys == if ok then old(slots).Keys + {n} else old(slots).Keys
      ensures Slots() == Apply(old(Slots()), ScheduleOp(n), size)
      ensures !ok ==> slots == old(slots) && freeCount == 0 && nextSlot == SlotFor(old(Slots())) >= size
    {
      hide SlotsOk, Pow2, TreeOk, LeavesOk, DeadlinesOf, SlotsFit, Handed;
      ghost var leaves, was := data[size..], seqs[..];
      FreeLeaf(leaves, was);
      SlotsAreFit(slots, was, free[..freeCount], nextSlot);
      var slot;
      ok, slot := Allocate(n);
      if ok {
        ReservedLeaves(leaves, was, slot, n);
        ReservedDeadlines(leaves, old(slots), n, slot);
      }
    }

    method Schedule(n: nat, deadline: int) returns (ok: bool)
      requires Valid()
      modifies this`slots, this`freeCount, this`nextSlot, data, seqs
      ensures Valid()
      ensures ok <==> n in old(slots) || |old(slots)| < size
      ensures ok ==> Deadlines() == old(Deadlines())[n := deadline] && slots.Keys == old(slots).Keys + {n}
      ensures !ok ==> Deadlines() == old(Deadlines())
      ensures Slots() == Apply(old(Slots()), ScheduleOp(n), size)
    {
      hide SlotsOk, Pow2, TreeOk, DeadlinesOf, Handed, SlotFor;
      if n !in slots {
        ok := Admit(n);
        if !ok {
          return;
        }
      }
      SlotsAreFit(slots, seqs[..], free[..freeCount], nextSlot);
      ScheduledDeadlines(data[size..], slots, n, deadline);
      Write(slots[n], Some(deadline));
      ok := true;
    }

    method Cancel(n: nat)
      requires Valid()
      modifies this`slots, this`freeCount, data, seqs, free
      ensures Valid()
      ensures Deadlines() == old(Deadlines()) - {n} && slots == old(slots) - {n}
      ensures Slots() == Apply(old(Slots()), CancelOp(n), size)
      ensures n in old(slots) ==> old(slots)[n] < size
      ensures n in old(slots) ==> data[size..] == old(data[size..])[old(slots)[n] := None]
      ensures n in old(slots) ==> seqs[..] == old(seqs[..])[old(slots)[n] := None]
      ensures n !in old(slots) ==> data[size..] == old(data[size..]) && seqs[..] == old(seqs[..])
    {
      hide SlotsOk, Pow2, TreeOk, DeadlinesOf;
      SlotsAreFit(slots, seqs[..], free[..freeCount], nextSlot);
      if n !in slots {
        NothingCancelled(data[size..], slots, n);
        return;
      }
      var slot := slots[n];
      ghost var was, list := seqs[..], free[..freeCount];
      Freed(slots, was, list, nextSlot, n);
      CancelledDeadlines(data[size..], slots, n);
      slots := slots - {n};
      seqs[slot] := None;
      assert seqs[..] == was[slot := None];
      free[freeCount] := slot;
      freeCount := freeCount + 1;
      assert free[..freeCount] == list + [slot];
      Write(slot, None);
    }

    /** Takes a slot without a deadline.  When none is left, only the mark of the next fresh slot still moves. */
    method Reserve(n: nat) returns (ok: bool)
      requires Valid()
      modifies this`slots, this`freeCount, this`nextSlot, seqs
      ensures Valid()
      ensures ok <==> n in old(slots) || |old(slots)| < size
      ensures Deadlines() == old(Deadlines())
      ensures slots.Keys == if ok then old(slots).Keys + {n} else old(slots).Keys
      ensures Slots() == Apply(old(Slots()), ReserveOp(n), size)
    {
      hide SlotsOk, Pow2, TreeOk, DeadlinesOf, LeavesOk, SlotsFit, Handed;
      if n in slots {
        return true;
      }
      ok := Admit(n);
      if !ok {
        SkipSlot();
      }
    }

    method SkipSlot()
      requires Valid() && freeCount == 0 && nextSlot >= size
      modifies this`nextSlot
      ensures Valid() && Deadlines() == old(Deadlines()) && Slots() == old(Slots()).(next := old(nextSlot) + 1)
    {
      hide SlotsOk, Pow2, TreeOk, DeadlinesOf, LeavesOk;
      assert free[..freeCount] == [];
      NoneLeft(slots, seqs[..], nextSlot);
      nextSlot := nextSlot + 1;
    }

    /** Visits the due entries under a node in the order of their slots, deleting those that the consumer drops before
        it goes on. */
    method Walk(pos: nat, ghost width: nat, limit: int, drop: nat -> bool) returns (out: seq<nat>)
      requires Valid() && 1 <= pos < 2 * size && Covers(size, pos, width)
      modifies this`slots, this`freeCount, data, seqs, free
      ensures Valid()
      ensures var lo, hi := pos * width - size, (pos + 1) * width - size;
              && out == DueSlots(old(data[size..]), old(seqs[..]), lo, hi, limit)
              && Swept(old(data[size..]), old(seqs[..]), lo, hi, limit, drop, data[size..], seqs[..])
      decreases width, 1
    {
      hide SlotsOk, Pow2, TreeOk, TreeOkBut, LeavesOk, DueSlots, Swept, Deadlines, Covers;
      if data[pos].None? || data[pos].value > limit {
        NotDueBelow(data[..], size, pos, width, limit);
        WalkNothing(data[size..], seqs[..], pos, width, limit, drop);
        return [];
      }
      if pos >= size {
        LeafCovers(size, pos, width);
        out := WalkLeaf(pos - size, limit, drop);
      } else {
        out := WalkChildren(pos, width, limit, drop);
      }
    }

    method WalkChildren(pos: nat, ghost width: nat, limit: int, drop: nat -> bool) returns (out: seq<nat>)
      requires Valid() && 1 <= pos < size && Covers(size, pos, width)
      modifies this`slots, this`freeCount, data, seqs, free
      ensures Valid()
      ensures var lo, hi := pos * width - size, (pos + 1) * width - size;
              && out == DueSlots(old(data[size..]), old(seqs[..]), lo, hi, limit)
              && Swept(old(data[size..]), old(seqs[..]), lo, hi, limit, drop, data[size..], seqs[..])
      decreases width, 0
    {
      hide SlotsOk, Pow2, TreeOk, TreeOkBut, LeavesOk, DueSlots, Swept, Deadlines, Covers;
      ChildrenCover(size, pos, width);
      RangeSplits(size, pos, width);
      ghost var leaves, was := data[size..], seqs[..];
      var first := Walk(2 * pos, width / 2, limit, drop);
      ghost var leaves1, was1 := data[size..], seqs[..];
      var second := Walk(2 * pos + 1, width / 2, limit, drop);
      out := first + second;
      WalkBoth(leaves, was, leaves1, was1, data[size..], seqs[..], pos, width, limit, drop);
    }

    method WalkLeaf(j: nat, limit: int, drop: nat -> bool) returns (out: seq<nat>)
      requires Valid() && j < size && Due(data[size..][j], limit)
      modifies this`slots, this`freeCount, data, seqs, free
      ensures Valid()
      ensures out == DueSlots(old(data[size..]), old(seqs[..]), j, j + 1, limit)
      ensures Swept(old(data[size..]), old(seqs[..]), j, j + 1, limit, drop, data[size..], seqs[..])
    {
      hide SlotsOk, Pow2, TreeOk, TreeOkBut, LeavesOk, DueSlots, Deadlines;
      ghost var leaves, was := data[size..], seqs[..];
      OneLeaf(leaves, was, j, limit);
      out := [];
      if seqs[j].Some? {
        var n := seqs[j].value;
        SlotOf(slots, was, free[..freeCount], nextSlot, j);
        out := [n];
        if drop(n) {
          Cancel(n);
        }
      }
    }

    /** Every due number is visited exactly once, whatever the consumer deletes on the way, and what it does not delete
        stays.  They come in the order of their slots, and so in the order of registration exactly if slots and numbers
        agree on what is due. */
    method Sweep(limit: int, drop: nat -> bool) returns (out: seq<nat>)
      requires Valid() && size >= 1
      modifies this`slots, this`freeCount, data, seqs, free
      ensures Valid() && Distinct(out)
      ensures BySlot(out, old(slots))
      ensures Increasing(out) <==> Agree(old(Deadlines()), old(slots), limit)
      ensures Ordered(old(Slots())) ==> Increasing(out)
      ensures forall n :: n in out <==> n in old(Deadlines()) && old(Deadlines())[n] <= limit
      ensures Deadlines() == map n | n in old(Deadlines()) && !(n in out && drop(n)) :: old(Deadlines())[n]
    {
      hide TreeOk, TreeOkBut, Pow2, LeavesOk, Swept, DueSlots, SlotsOk, Covers, DeadlinesOf, SlotsFit, Distinct, BySlot,
           Increasing, Agree, Ordered;
      if Ordered(Slots()) {
        OrderedAgrees(Slots(), Deadlines(), limit);
      }
      ghost var leaves, was, before, list, next := data[size..], seqs[..], slots, free[..freeCount], nextSlot;
      RootCovers(size);
      out := Walk(1, size, limit, drop);
      InSlotOrder(leaves, was, before, list, next, limit);
      WholeWalk(leaves, was, before, list, next, data[size..], seqs[..], slots, free[..freeCount], nextSlot, limit,
                drop);
    }
  }

  lemma RootCovers(size: nat)
    requires Pow2(size) && size >= 1
    ensures Covers(size, 1, size) && 1 * size - size == 0 && 2 * size - size == size
  {
  }

  lemma FreeLeaf(leaves: seq<Option<int>>, seqs: seq<Option<nat>>)
    requires LeavesOk(leaves, seqs)
    ensures |leaves| == |seqs| && forall j :: 0 <= j < |seqs| && seqs[j].None? ==> leaves[j].None?
  {
  }

  lemma ReservedLeaves(leaves: seq<Option<int>>, seqs: seq<Option<nat>>, slot: nat, n: nat)
    requires LeavesOk(leaves, seqs) && slot < |seqs|
    ensures LeavesOk(leaves, seqs[slot := Some(n)])
  {
  }

  lemma NothingCancelled(leaves: seq<Option<int>>, slots: map<nat, nat>, n: nat)
    requires SlotsFit(slots, |leaves|) && n !in slots
    ensures slots - {n} == slots && DeadlinesOf(leaves, slots) - {n} == DeadlinesOf(leaves, slots)
  {
  }

  lemma SlotOf(slots: map<nat, nat>, seqs: seq<Option<nat>>, free: seq<nat>, nextSlot: nat, j: nat)
    requires SlotsOk(slots, seqs, free, nextSlot) && j < |seqs| && seqs[j].Some?
    ensures seqs[j].value in slots && slots[seqs[j].value] == j
  {
  }

  lemma WalkNothing(leaves: seq<Option<int>>, seqs: seq<Option<nat>>, pos: nat, width: nat, limit: int,
                    drop: nat -> bool)
    requires var size := |leaves|; size == |seqs| && Covers(size, pos, width)
    requires forall j :: pos * width - |leaves| <= j < (pos + 1) * width - |leaves| ==> !Due(leaves[j], limit)
    ensures var lo, hi := pos * width - |leaves|, (pos + 1) * width - |leaves|;
            0 <= lo <= hi <= |leaves| && DueSlots(leaves, seqs, lo, hi, limit) == []
            && Swept(leaves, seqs, lo, hi, limit, drop, leaves, seqs)
  {
    assert (pos + 1) * width == pos * width + width;
    NothingDue(leaves, seqs, pos * width - |leaves|, (pos + 1) * width - |leaves|, limit);
  }

  lemma WalkBoth(leaves: seq<Option<int>>, seqs: seq<Option<nat>>, leaves1: seq<Option<int>>, seqs1: seq<Option<nat>>,
                 leaves2: seq<Option<int>>, seqs2: seq<Option<nat>>, pos: nat, width: nat, limit: int,
                 drop: nat -> bool)
    requires |leaves| == |seqs| && 1 <= pos < |leaves| && Covers(|leaves|, pos, width)
    requires var lo, mid := 2 * pos * (width / 2) - |leaves|, (2 * pos + 1) * (width / 2) - |leaves|;
             0 <= lo <= mid && Swept(leaves, seqs, lo, mid, limit, drop, leaves1, seqs1)
    requires var mid, hi := (2 * pos + 1) * (width / 2) - |leaves|, (2 * pos + 2) * (width / 2) - |leaves|;
             0 <= mid <= hi && Swept(leaves1, seqs1, mid, hi, limit, drop, leaves2, seqs2)
    ensures var lo, mid, hi := pos * width - |leaves|, (2 * pos + 1) * (width / 2) - |leaves|,
              (pos + 1) * width - |leaves|;
            && 0 <= lo <= mid <= hi <= |leaves|
            && |leaves1| == |seqs1| == |leaves|
            && DueSlots(leaves, seqs, lo, hi, limit)
               == DueSlots(leaves, seqs, lo, mid, limit) + DueSlots(leaves1, seqs1, mid, hi, limit)
            && Swept(leaves, seqs, lo, hi, limit, drop, leaves2, seqs2)
  {
    RangeSplits(|leaves|, pos, width);
    hide Covers, Pow2;
    BothHalves(leaves, seqs, leaves1, seqs1, leaves2, seqs2, pos * width - |leaves|,
               (2 * pos + 1) * (width / 2) - |leaves|,
               (pos + 1) * width - |leaves|, limit, drop);
  }

  lemma BothHalves(leaves: seq<Option<int>>, seqs: seq<Option<nat>>, leaves1: seq<Option<int>>, seqs1: seq<Option<nat>>,
                   leaves2: seq<Option<int>>, seqs2: seq<Option<nat>>, lo: nat, mid: nat, hi: nat, limit: int,
                   drop: nat -> bool)
    requires lo <= mid <= hi <= |leaves| == |seqs|
    requires Swept(leaves, seqs, lo, mid, limit, drop, leaves1, seqs1)
    requires Swept(leaves1, seqs1, mid, hi, limit, drop, leaves2, seqs2)
    ensures |leaves1| == |seqs1| == |leaves|
    ensures DueSlots(leaves, seqs, lo, hi, limit)
            == DueSlots(leaves, seqs, lo, mid, limit) + DueSlots(leaves1, seqs1, mid, hi, limit)
    ensures Swept(leaves, seqs, lo, hi, limit, drop, leaves2, seqs2)
  {
    hide DueSlots;
    SweptTwice(leaves, seqs, lo, mid, hi, limit, drop, leaves1, seqs1, leaves2, seqs2);
    DueSlotsSplit(leaves, seqs, lo, mid, hi, limit);
  }

  /** The leaves under a node are those under its two children. */
  lemma RangeSplits(size: nat, pos: nat, width: nat)
    requires 1 <= pos < size && Covers(size, pos, width)
    ensures 2 * pos * (width / 2) == pos * width && (2 * pos + 2) * (width / 2) == (pos + 1) * width
    ensures size <= pos * width <= (2 * pos + 1) * (width / 2) <= (pos + 1) * width <= 2 * size
  {
    ChildrenCover(size, pos, width);
    assert (pos + 1) * width == pos * width + width;
    assert (2 * pos + 2) * (width / 2) == (2 * pos + 1) * (width / 2) + width / 2;
  }

  // ---- A whole walk ----

  lemma {:induction false} DueSlotsMember(leaves: seq<Option<int>>, seqs: seq<Option<nat>>, lo: nat, hi: nat,
                                          limit: int, n: nat)
    requires lo <= hi <= |leaves| == |seqs|
    ensures n in DueSlots(leaves, seqs, lo, hi, limit)
            <==> exists j :: lo <= j < hi && seqs[j] == Some(n) && Listed(leaves, seqs, j, limit)
    decreases hi - lo
  {
    if lo < hi {
      DueSlotsMember(leaves, seqs, lo, hi - 1, limit, n);
    }
  }

  lemma {:induction false} DueIsDistinct(leaves: seq<Option<int>>, seqs: seq<Option<nat>>, slots: map<nat, nat>,
                                         free: seq<nat>, nextSlot: nat, hi: nat, limit: int)
    requires hi <= |leaves| == |seqs| && SlotsOk(slots, seqs, free, nextSlot)
    ensures Distinct(DueSlots(leaves, seqs, 0, hi, limit))
    decreases hi
  {
    if hi > 0 {
      DueIsDistinct(leaves, seqs, slots, free, nextSlot, hi - 1, limit);
      if Listed(leaves, seqs, hi - 1, limit) {
        DueSlotsMember(leaves, seqs, 0, hi - 1, limit, seqs[hi - 1].value);
      }
    }
  }

  lemma DueIsExact(leaves: seq<Option<int>>, seqs: seq<Option<nat>>, slots: map<nat, nat>, free: seq<nat>,
                   nextSlot: nat,
                   limit: int)
    requires |leaves| == |seqs| && SlotsOk(slots, seqs, free, nextSlot) && SlotsFit(slots, |leaves|)
    ensures forall n :: n in DueSlots(leaves, seqs, 0, |leaves|, limit)
                        <==> n in DeadlinesOf(leaves, slots) && DeadlinesOf(leaves, slots)[n] <= limit
  {
    forall n: nat
      ensures n in DueSlots(leaves, seqs, 0, |leaves|, limit)
              <==> n in DeadlinesOf(leaves, slots) && DeadlinesOf(leaves, slots)[n] <= limit
    {
      DueSlotsMember(leaves, seqs, 0, |leaves|, limit, n);
      if n in slots {
        assert seqs[slots[n]] == Some(n);
      }
    }
  }

  lemma SweptDeadlines(leaves: seq<Option<int>>, seqs: seq<Option<nat>>, slots: map<nat, nat>, free: seq<nat>,
                       nextSlot: nat,
                       leaves': seq<Option<int>>, seqs': seq<Option<nat>>, slots': map<nat, nat>, free': seq<nat>,
                       nextSlot': nat, limit: int, drop: nat -> bool)
    requires |leaves| == |seqs| == |leaves'| == |seqs'|
    requires SlotsOk(slots, seqs, free, nextSlot) && SlotsOk(slots', seqs', free', nextSlot')
    requires SlotsFit(slots, |leaves|) && SlotsFit(slots', |leaves|)
    requires Swept(leaves, seqs, 0, |leaves|, limit, drop, leaves', seqs')
    ensures var before, out := DeadlinesOf(leaves, slots), DueSlots(leaves, seqs, 0, |leaves|, limit);
            DeadlinesOf(leaves', slots') == map n | n in before && !(n in out && drop(n)) :: before[n]
  {
    hide DeadlinesOf, SlotsOk, SlotsFit, Swept, DueSlots;
    var before, out, after :=
      DeadlinesOf(leaves, slots), DueSlots(leaves, seqs, 0, |leaves|, limit), DeadlinesOf(leaves', slots');
    DueIsExact(leaves, seqs, slots, free, nextSlot, limit);
    forall n: nat
      ensures n in after <==> n in before && !(n in out && drop(n))
      ensures n in after && n in before ==> after[n] == before[n]
    {
      SweptOne(leaves, seqs, slots, free, nextSlot, leaves', seqs', slots', free', nextSlot', limit, drop, n);
    }
  }

  /** One number before and after the walk. */
  lemma SweptOne(leaves: seq<Option<int>>, seqs: seq<Option<nat>>, slots: map<nat, nat>, free: seq<nat>, nextSlot: nat,
                 leaves': seq<Option<int>>, seqs': seq<Option<nat>>, slots': map<nat, nat>, free': seq<nat>,
                 nextSlot': nat, limit: int, drop: nat -> bool, n: nat)
    requires |leaves| == |seqs| == |leaves'| == |seqs'|
    requires SlotsOk(slots, seqs, free, nextSlot) && SlotsOk(slots', seqs', free', nextSlot')
    requires SlotsFit(slots, |leaves|) && SlotsFit(slots', |leaves|)
    requires Swept(leaves, seqs, 0, |leaves|, limit, drop, leaves', seqs')
    ensures var before, after := DeadlinesOf(leaves, slots), DeadlinesOf(leaves', slots');
            && (n in after <==> n in before && !(before[n] <= limit && drop(n)))
            && (n in after && n in before ==> after[n] == before[n])
  {
    assert n in slots' ==> seqs'[slots'[n]] == Some(n) && seqs[slots'[n]] == Some(n);
    if n in slots {
      var j := slots[n];
      assert seqs[j] == Some(n);
      assert Dropped(leaves, seqs, 0, |leaves|, limit, drop, j) <==> Due(leaves[j], limit) && drop(n);
      if n in slots' {
        assert seqs'[slots'[n]] == Some(n);
        assert slots'[n] == j;
      } else {
        assert seqs'[j] != Some(n);
      }
    }
  }

  lemma WholeWalk(leaves: seq<Option<int>>, seqs: seq<Option<nat>>, slots: map<nat, nat>, free: seq<nat>, nextSlot: nat,
                  leaves': seq<Option<int>>, seqs': seq<Option<nat>>, slots': map<nat, nat>, free': seq<nat>,
                  nextSlot': nat, limit: int, drop: nat -> bool)
    requires |leaves| == |seqs| == |leaves'| == |seqs'|
    requires SlotsOk(slots, seqs, free, nextSlot) && SlotsOk(slots', seqs', free', nextSlot')
    requires Swept(leaves, seqs, 0, |leaves|, limit, drop, leaves', seqs')
    ensures SlotsFit(slots, |leaves|) && SlotsFit(slots', |leaves|)
    ensures var before, out := DeadlinesOf(leaves, slots), DueSlots(leaves, seqs, 0, |leaves|, limit);
            && Distinct(out) && (forall n :: n in out <==> n in before && before[n] <= limit)
            && DeadlinesOf(leaves', slots') == map n | n in before && !(n in out && drop(n)) :: before[n]
  {
    SlotsAreFit(slots, seqs, free, nextSlot);
    SlotsAreFit(slots', seqs', free', nextSlot');
    DueIsDistinct(leaves, seqs, slots, free, nextSlot, |leaves|, limit);
    DueIsExact(leaves, seqs, slots, free, nextSlot, limit);
    SweptDeadlines(leaves, seqs, slots, free, nextSlot, leaves', seqs', slots', free', nextSlot', limit, drop);
  }

  // ---- The order of a walk ----

  predicate Increasing(out: seq<nat>) { forall i, j :: 0 <= i < j < |out| ==> out[i] < out[j] }

  predicate BySlot(out: seq<nat>, slots: map<nat, nat>) {
    && (forall i :: 0 <= i < |out| ==> out[i] in slots)
    && forall i, j :: 0 <= i < j < |out| ==> slots[out[i]] < slots[out[j]]
  }

  /** Among the due numbers a later one never has an earlier slot. */
  predicate Agree(deadlines: map<nat, int>, slots: map<nat, nat>, limit: int) {
    forall m: nat, n: nat ::
      m in deadlines && deadlines[m] <= limit && n in deadlines && deadlines[n] <= limit && m < n && m in slots
      && n in slots
      ==> slots[m] < slots[n]
  }

  lemma {:induction false} DueBySlot(leaves: seq<Option<int>>, seqs: seq<Option<nat>>, slots: map<nat, nat>,
                                     free: seq<nat>,
                                     nextSlot: nat, hi: nat, limit: int)
    requires hi <= |leaves| == |seqs| && SlotsOk(slots, seqs, free, nextSlot)
    ensures BySlot(DueSlots(leaves, seqs, 0, hi, limit), slots)
    decreases hi
  {
    if hi > 0 {
      DueBySlot(leaves, seqs, slots, free, nextSlot, hi - 1, limit);
      if Listed(leaves, seqs, hi - 1, limit) {
        var n, init := seqs[hi - 1].value, DueSlots(leaves, seqs, 0, hi - 1, limit);
        forall i | 0 <= i < |init| ensures init[i] in slots && slots[init[i]] < hi - 1 {
          DueSlotsMember(leaves, seqs, 0, hi - 1, limit, init[i]);
        }
        assert slots[n] == hi - 1;
      }
    }
  }

  /** A sequence in the order of the slots increases exactly if slots and numbers agree on its members. */
  lemma SortedTwice(out: seq<nat>, deadlines: map<nat, int>, slots: map<nat, nat>, limit: int)
    requires BySlot(out, slots) && forall n :: n in out <==> n in deadlines && deadlines[n] <= limit
    ensures Increasing(out) <==> Agree(deadlines, slots, limit)
  {
    if Increasing(out) {
      forall m: nat, n: nat | m in deadlines && deadlines[m] <= limit && n in deadlines && deadlines[n] <= limit
                              && m < n
        ensures m in slots && n in slots && slots[m] < slots[n]
      {
        assert m in out && n in out;
        var i :| 0 <= i < |out| && out[i] == m;
        var j :| 0 <= j < |out| && out[j] == n;
      }
    }
    if Agree(deadlines, slots, limit) {
      forall i, j | 0 <= i < j < |out| ensures out[i] < out[j] {
        assert out[i] in out && out[j] in out;
      }
    }
  }

  lemma InSlotOrder(leaves: seq<Option<int>>, seqs: seq<Option<nat>>, slots: map<nat, nat>, free: seq<nat>,
                    nextSlot: nat,
                    limit: int)
    requires |leaves| == |seqs| && SlotsOk(slots, seqs, free, nextSlot)
    ensures SlotsFit(slots, |leaves|)
    ensures var out := DueSlots(leaves, seqs, 0, |leaves|, limit);
            BySlot(out, slots) && (Increasing(out) <==> Agree(DeadlinesOf(leaves, slots), slots, limit))
  {
    SlotsAreFit(slots, seqs, free, nextSlot);
    DueBySlot(leaves, seqs, slots, free, nextSlot, |leaves|, limit);
    DueIsExact(leaves, seqs, slots, free, nextSlot, limit);
    SortedTwice(DueSlots(leaves, seqs, 0, |leaves|, limit), DeadlinesOf(leaves, slots), slots, limit);
  }

  // ---- When slots and numbers agree ----

  predicate Ordered(b: Book) { forall m, n :: m in b.held && n in b.held && m < n ==> b.held[m] < b.held[n] }

  /** Slots and numbers that agree altogether agree on whatever is due. */
  lemma OrderedAgrees(b: Book, deadlines: map<nat, int>, limit: int)
    requires Ordered(b)
    ensures Agree(deadlines, b.held, limit)
  {
  }

  predicate Above(b: Book, n: nat) { forall m :: m in b.held ==> m < n }

  /** A number above all others keeps the agreement exactly if its slot lies behind every slot in use. */
  lemma HandingKeepsOrderExactlyWhen(b: Book, n: nat)
    requires Ordered(b) && Above(b, n)
    ensures Ordered(Handed(b, n)) <==> forall m :: m in b.held ==> b.held[m] < SlotFor(b)
  {
    var held := Handed(b, n).held;
    if Ordered(Handed(b, n)) {
      forall m | m in b.held ensures b.held[m] < SlotFor(b) {
        assert m in held && n in held && held[m] < held[n];
      }
    }
  }

  /** New numbers come in increasing order. */
  predicate Ascending(ops: seq<Op>, size: nat) {
    forall i :: 0 <= i < |ops| && !ops[i].CancelOp? ==>
      var b := BookAfter(ops[..i], size); ops[i].n in b.held || Above(b, ops[i].n)
  }

  predicate NothingFreed(ops: seq<Op>, size: nat) {
    forall i :: 0 <= i < |ops| && ops[i].CancelOp? ==> ops[i].n !in BookAfter(ops[..i], size).held
  }

  predicate Fresh(b: Book) { b.free == [] && forall m :: m in b.held ==> b.held[m] < b.next }

  /** As long as new numbers come in increasing order and no slot has been freed, slots and numbers agree, so a sweep
      yields in the order of registration. */
  lemma {:induction false} RegistrationOrder(ops: seq<Op>, size: nat)
    requires Ascending(ops, size) && NothingFreed(ops, size)
    ensures var b := BookAfter(ops, size); Ordered(b) && Fresh(b)
    decreases |ops|
  {
    if ops != [] {
      var before, op := ops[..|ops| - 1], ops[|ops| - 1];
      forall i | 0 <= i < |before| ensures before[..i] == ops[..i] && before[i] == ops[i] {
      }
      RegistrationOrder(before, size);
      var b := BookAfter(before, size);
      if !op.CancelOp? && op.n !in b.held && SlotFor(b) < size {
        assert Above(b, op.n);
        HandingKeepsOrderExactlyWhen(b, op.n);
      }
    }
  }

  lemma ReusedBooks()
    ensures Apply(EMPTY_BOOK, ScheduleOp(1), 2) == Book(map[1 := 0], [], 1)
    ensures Apply(Book(map[1 := 0], [], 1), ScheduleOp(2), 2) == Book(map[1 := 0, 2 := 1], [], 2)
    ensures Apply(Book(map[1 := 0, 2 := 1], [], 2), CancelOp(1), 2) == Book(map[2 := 1], [0], 2)
    ensures Apply(Book(map[2 := 1], [0], 2), ScheduleOp(3), 2) == Book(map[2 := 1, 3 := 0], [], 2)
  {
    assert map[1 := 0, 2 := 1] - {1} == map[2 := 1];
  }

  lemma ReusedDeadlines(d: map<nat, int>)
    requires d == ((map[][1 := 10][2 := 10]) - {1})[3 := 10]
    ensures forall n: nat :: n in d && d[n] <= 10 <==> n == 2 || n == 3
  {
  }

  method ReusedSlot() returns (index: DeadlineIndex)
    ensures index.Valid() && index.size == 2 && fresh(index) && fresh(index.data) && fresh(index.seqs)
            && fresh(index.free)
    ensures index.Slots() == Book(map[2 := 1, 3 := 0], [], 2)
    ensures index.Deadlines() == ((map[][1 := 10][2 := 10]) - {1})[3 := 10]
  {
    hide SlotsOk, TreeOk, LeavesOk, Pow2, DeadlinesOf, Apply;
    ReusedBooks();
    index := new DeadlineIndex(2);
    var ok := index.Schedule(1, 10);
    ok := index.Schedule(2, 10);
    index.Cancel(1);
    ok := index.Schedule(3, 10);
  }

  /** A freed slot is handed out again, to a later number: 1 and 2 take the first two slots, 1 gives its slot up and 3
      takes it over, in front of 2. */
  method ReuseBreaksOrder() returns (out: seq<nat>)
    ensures out == [3, 2]
  {
    hide SlotsOk, TreeOk, LeavesOk, Pow2, DeadlinesOf, BySlot, Distinct, Agree, Increasing;
    var index := ReusedSlot();
    ReusedDeadlines(index.Deadlines());
    out := index.Sweep(10, _ => false);
    TwoBySlot(out, map[2 := 1, 3 := 0]);
  }

  lemma {:induction false} BehindItsPlace(out: seq<nat>, slots: map<nat, nat>, k: nat)
    requires BySlot(out, slots) && k < |out|
    ensures k <= slots[out[k]]
  {
    if k > 0 {
      BehindItsPlace(out, slots, k - 1);
    }
  }

  lemma TwoBySlot(out: seq<nat>, slots: map<nat, nat>)
    requires Distinct(out) && (forall n :: n in out <==> n == 2 || n == 3) && slots == map[2 := 1, 3 := 0]
    requires BySlot(out, slots)
    ensures out == [3, 2]
  {
    assert 2 in out && 3 in out;
    BehindItsPlace(out, slots, |out| - 1);
    assert out[|out| - 1] in out;
    assert |out| <= 2;
  }
}
