/** All the kernel's queues over their shared slot pool (queue.rs): create, delete, send, receive,
    peek and reset, for tasks that need not block and for interrupts. */
module QueueStores {
  import opened Basics
  import opened Extents
  import opened ExtentPools
  import opened QueueRings

  // ------------------------------------------------ the queues as values --

  predicate AllStored(queues: map<Handle, Ring>, slots: nat) {
    forall h :: h in queues ==> Stored(queues[h], slots)
  }

  /** No two queues of data share a slot. */
  ghost predicate Separate(queues: map<Handle, Ring>) {
    forall g, h :: g in queues && h in queues && g != h
      && queues[g].kind.CarriesData() && queues[h].kind.CarriesData()
      ==> Apart(ExtentOf(queues[g]), ExtentOf(queues[h]))
  }

  ghost function LiveExtents(queues: map<Handle, Ring>): set<Extent> {
    set h | h in queues && queues[h].kind.CarriesData() :: ExtentOf(queues[h])
  }

  /** What a queue holds of the pool. */
  function Share(base: nat, length: nat, kind: Kind): set<Extent> {
    if kind.CarriesData() then {Extent(base, length)} else {}
  }

  ghost function ModelOf(slots: seq<Value>, queues: map<Handle, Ring>): map<Handle, Deque>
    requires AllStored(queues, |slots|)
  {
    map h | h in queues :: DequeOf(slots, queues[h])
  }

  /** One descriptor moved within its extent, a slot of its own written or not: in the model exactly
      that one deque moved. */
  lemma OneQueueMoved(slots: seq<Value>, writes: bool, at: nat, v: Value, queues: map<Handle, Ring>, h: Handle, r: Ring)
    requires AllStored(queues, |slots|) && Separate(queues)
    requires h in queues && Stored(r, |slots|)
    requires r.kind == queues[h].kind && ExtentOf(r) == ExtentOf(queues[h])
    requires writes ==> at < |slots| && r.kind.CarriesData() && ExtentOf(r).Has(at)
    ensures var after := if writes then slots[at := v] else slots;
      && AllStored(queues[h := r], |after|) && Separate(queues[h := r])
      && LiveExtents(queues[h := r]) == LiveExtents(queues)
      && ModelOf(after, queues[h := r]) == ModelOf(slots, queues)[h := DequeOf(after, r)]
  {
    if writes {
      forall g | g in queues && g != h ensures DequeOf(slots[at := v], queues[g]) == DequeOf(slots, queues[g]) {
        WriteElsewhere(slots, at, v, queues[g], ExtentOf(r));
      }
    }
    SameExtents(queues, h, r);
  }

  /** A queue made on an extent nobody held joins the others without touching them. */
  lemma QueueJoins(slots: seq<Value>, queues: map<Handle, Ring>, free: set<Extent>, used: nat, h: Handle, r: Ring)
    requires AllStored(queues, |slots|) && Separate(queues) && h !in queues
    requires 0 < r.length && r == NewRing(r.base, r.length, r.kind) && (r.kind.IsMutex() ==> r.length == 1)
    requires r.kind.CarriesData() ==> ExtentOf(r) !in LiveExtents(queues)
    requires Tiles(LiveExtents(queues[h := r]), free, used) && used <= |slots|
    ensures AllStored(queues[h := r], |slots|) && Separate(queues[h := r])
    ensures ModelOf(slots, queues[h := r]) == ModelOf(slots, queues)[h := Deque(r.kind, r.length, [], None)]
  {
    var after, live := queues[h := r], LiveExtents(queues[h := r]);
    assert after[h] == r;
    assert RingOk(r);
    if r.kind.CarriesData() {
      assert ExtentOf(r) in live && ExtentOf(r) in live + free;
      forall g | g in queues && queues[g].kind.CarriesData() ensures Apart(ExtentOf(queues[g]), ExtentOf(r)) {
        assert after[g] == queues[g] && ExtentOf(queues[g]) in LiveExtents(queues);
        assert ExtentOf(after[g]) in live && ExtentOf(queues[g]) in live + free;
      }
    }
    assert Items(slots, r) == [];
  }

  lemma QueueLeaves(slots: seq<Value>, queues: map<Handle, Ring>, h: Handle)
    requires AllStored(queues, |slots|) && Separate(queues) && h in queues
    ensures AllStored(queues - {h}, |slots|) && Separate(queues - {h})
    ensures LiveExtents(queues - {h}) ==
      LiveExtents(queues) - Share(queues[h].base, queues[h].length, queues[h].kind)
    ensures ModelOf(slots, queues - {h}) == ModelOf(slots, queues) - {h}
    ensures |queues - {h}| == |queues| - 1
  {
    ExtentsWithout(queues, h);
    assert (queues - {h}).Keys == queues.Keys - {h};
    assert |queues.Keys| == |queues| && |(queues - {h}).Keys| == |queues - {h}|;
  }

  lemma SameExtents(queues: map<Handle, Ring>, h: Handle, r: Ring)
    requires h in queues && r.kind == queues[h].kind && ExtentOf(r) == ExtentOf(queues[h])
    ensures LiveExtents(queues[h := r]) == LiveExtents(queues)
  {
    var after := queues[h := r];
    forall e | e in LiveExtents(queues) ensures e in LiveExtents(after) {
      var g :| g in queues && queues[g].kind.CarriesData() && ExtentOf(queues[g]) == e;
      assert g in after && after[g].kind.CarriesData() && ExtentOf(after[g]) == e;
    }
    forall e | e in LiveExtents(after) ensures e in LiveExtents(queues) {
      var g :| g in after && after[g].kind.CarriesData() && ExtentOf(after[g]) == e;
      assert g in queues && queues[g].kind.CarriesData() && ExtentOf(queues[g]) == e;
    }
  }

  lemma ExtentsWith(queues: map<Handle, Ring>, h: Handle, r: Ring)
    requires h !in queues
    ensures LiveExtents(queues[h := r]) == LiveExtents(queues) + Share(r.base, r.length, r.kind)
  {
    var after := queues[h := r];
    forall e | e in LiveExtents(queues) ensures e in LiveExtents(after) {
      var g :| g in queues && queues[g].kind.CarriesData() && ExtentOf(queues[g]) == e;
      assert g in after && after[g] == queues[g];
    }
    if r.kind.CarriesData() { assert after[h] == r; }
  }

  lemma ExtentsWithout(queues: map<Handle, Ring>, h: Handle)
    requires h in queues && Separate(queues)
    requires forall g :: g in queues ==> 0 < queues[g].length
    ensures LiveExtents(queues - {h}) ==
      LiveExtents(queues) - if queues[h].kind.CarriesData() then {ExtentOf(queues[h])} else {}
  {
    var after, gone := queues - {h}, ExtentOf(queues[h]);
    forall e | e in LiveExtents(queues) && (e != gone || !queues[h].kind.CarriesData())
      ensures e in LiveExtents(after)
    {
      var g :| g in queues && queues[g].kind.CarriesData() && ExtentOf(queues[g]) == e;
      assert g in after && after[g] == queues[g];
    }
    forall e | e in LiveExtents(after) ensures e in LiveExtents(queues) && (queues[h].kind.CarriesData() ==> e != gone) {
      var g :| g in after && after[g].kind.CarriesData() && ExtentOf(after[g]) == e;
      assert g in queues && queues[g] == after[g];
    }
  }

  /** There are never more live extents than live queues. */
  lemma {:induction false} ExtentsAtMostQueues(queues: map<Handle, Ring>)
    ensures |LiveExtents(queues)| <= |queues|
    decreases |queues|
  {
    if queues == map[] {
      assert LiveExtents(queues) == {};
    } else {
      var h :| h in queues;
      var rest := queues - {h};
      assert |rest| == |queues| - 1 by {
        assert rest.Keys == queues.Keys - {h};
        assert |queues.Keys| == |queues| && |rest.Keys| == |rest|;
      }
      ExtentsAtMostQueues(rest);
      ExtentsWith(rest, h, queues[h]);
      assert rest[h := queues[h]] == queues;
      var more: set<Extent> := if queues[h].kind.CarriesData() then {ExtentOf(queues[h])} else {};
      assert LiveExtents(queues) == LiveExtents(rest) + more;
      assert |LiveExtents(rest) + more| <= |LiveExtents(rest)| + |more|;
    }
  }

  // ------------------------------------------------- descriptors and slots --

  /** The descriptor arena and the slot pool: all a send or a receive touches. */
  class QueueTable {
    /** `slots`: every queue's items. */
    const slots: array<Value>
    var queues: map<Handle, Ring>
    /** Handles from here on have never been issued: an arena never issues one twice. */
    var unissued: Handle
    /** What the queues are to their users. */
    ghost var model: map<Handle, Deque>

    ghost predicate Valid()
      reads this, slots
    {
      && (forall h :: h in queues ==> h < unissued)
      && AllStored(queues, slots.Length)
      && Separate(queues)
      && model == ModelOf(slots[..], queues)
    }

    constructor (slotCount: nat)
      ensures Valid() && queues == map[] && model == map[] && fresh(slots) && slots.Length == slotCount
    {
      slots := new Value[slotCount](_ => 0);
      queues, unissued, model := map[], 0, map[];
    }

    /** The arena issues a handle for a queue made on slots no queue holds. */
    method Insert(base: nat, length: nat, kind: Kind, ghost free: set<Extent>, ghost used: nat) returns (h: Handle)
      requires Valid() && 0 < length && (kind.IsMutex() ==> length == 1)
      requires var e := Extent(base, length);
        && (kind.CarriesData() ==> e !in LiveExtents(queues))
        && used <= slots.Length
        && Tiles(LiveExtents(queues) + Share(base, length, kind), free, used)
      modifies this
      ensures Valid() && h !in old(queues) && |queues| == |old(queues)| + 1
      ensures h in queues && queues[h].kind == kind && queues[h].length == length && queues[h].waiting == 0
      ensures LiveExtents(queues) == old(LiveExtents(queues)) + Share(base, length, kind)
      ensures model == old(model)[h := Deque(kind, length, [], None)]
    {
      h := unissued;
      ExtentsWith(queues, h, NewRing(base, length, kind));
      QueueJoins(slots[..], queues, free, used, h, NewRing(base, length, kind));
      queues := queues[h := NewRing(base, length, kind)];
      model := model[h := Deque(kind, length, [], None)];
      unissued := unissued + 1;
    }

    /** `discard`: the handle goes stale. */
    method Discard(queue: Handle)
      requires Valid() && queue in queues
      modifies this`queues, this`model
      ensures Valid() && |queues| < |old(queues)|
      ensures LiveExtents(queues) ==
        old(LiveExtents(queues)) - old(Share(queues[queue].base, queues[queue].length, queues[queue].kind))
      ensures model == old(model) - {queue}
    {
      QueueLeaves(slots[..], queues, queue);
      queues := queues - {queue};
      model := model - {queue};
    }

    /** `copy_data_to_queue`: the slot written, the cursor moved, the arrival counted. */
    method CopyDataToQueue(queue: Handle, value: Value, position: Position)
      requires Valid() && queue in queues && MaySend(queues[queue], position)
      modifies this`queues, this`model, slots
      ensures Valid() && queues.Keys == old(queues.Keys)
      ensures LiveExtents(queues) == LiveExtents(old(queues))
      ensures model == old(model)[queue := Put(old(model)[queue], value, position)]
      ensures queue in model && PutOutcome(old(model)[queue], value, position, model[queue])
    {
      hide PutOutcome, Put, Items, Cell, WrapNext, WrapPrev;
      PutExactly(model[queue], value, position);
      var q := queues[queue];
      ghost var was := slots[..];
      var index := q.base + SendIndex(q, position);
      if q.kind.CarriesData() {
        slots[index] := value;
        assert slots[..] == was[index := value];
      }
      SendIsPut(was, slots[..], q, value, position);
      OneQueueMoved(was, q.kind.CarriesData(), index, value, queues, queue, AfterSend(q, position));
      queues := queues[queue := AfterSend(q, position)];
      model := model[queue := DequeOf(slots[..], AfterSend(q, position))];
    }

    /** A send that need not wait: `send_from_isr_locked`, and `queue_send_generic` while there is
        room.  An overwrite must not meet items on a longer queue of data, where the C asserts. */
    method Send(queue: Handle, value: Value, position: Position) returns (r: Result<()>)
      requires Valid()
      requires position.Overwrite? && queue in queues ==> MaySend(queues[queue], Overwrite)
      modifies this`queues, this`model, slots
      ensures Valid() && queues.Keys == old(queues.Keys)
      ensures LiveExtents(queues) == LiveExtents(old(queues))
      ensures r == if queue !in old(model) then Err(Gone)
                   else if |old(model)[queue].items| >= old(model)[queue].length && !position.Overwrite? then Err(QueueFull)
                   else Ok(())
      ensures model ==
        if r.Ok? then old(model)[queue := Put(old(model)[queue], value, position)] else old(model)
      ensures r.Ok? ==> queue in model && PutOutcome(old(model)[queue], value, position, model[queue])
    {
      if queue !in queues {
        return Err(Gone);
      }
      if queues[queue].waiting >= queues[queue].length && !position.Overwrite? {
        return Err(QueueFull);
      }
      CopyDataToQueue(queue, value, position);
      r := Ok(());
    }

    /** A receive that need not wait: `receive_from_isr_locked`, and `queue_take` while an item is
        there.  A peek changes nothing. */
    method Receive(queue: Handle, caller: TaskId, peek: bool) returns (r: Result<Value>)
      requires Valid()
      modifies this`queues, this`model
      ensures Valid() && queues.Keys == old(queues.Keys)
      ensures LiveExtents(queues) == LiveExtents(old(queues))
      ensures r == if queue !in old(model) then Err(Gone)
                   else if old(model)[queue].items == [] then Err(QueueEmpty)
                   else Ok(old(model)[queue].items[0])
      ensures model ==
        if r.Ok? && !peek then old(model)[queue := Got(old(model)[queue], caller)] else old(model)
      ensures r.Ok? && !peek ==> queue in model && GotOutcome(old(model)[queue], caller, model[queue])
    {
      if queue !in queues {
        return Err(Gone);
      }
      var q := queues[queue];
      if q.waiting == 0 {
        return Err(QueueEmpty);
      }
      TakeIsGot(slots[..], q, caller);
      r := Ok(if q.kind.CarriesData() then slots[q.base + WrapNext(q.readFrom, q.length)] else 0);
      if !peek {
        OneQueueMoved(slots[..], false, 0, 0, queues, queue, AfterTake(q, caller));
        queues := queues[queue := AfterTake(q, caller)];
        model := model[queue := DequeOf(slots[..], AfterTake(q, caller))];
      }
    }

    /** `queue_reset`: the items go, the queue and its slots stay. */
    method QueueReset(queue: Handle) returns (r: Result<()>)
      requires Valid()
      modifies this`queues, this`model
      ensures Valid() && queues.Keys == old(queues.Keys)
      ensures LiveExtents(queues) == LiveExtents(old(queues))
      ensures r == if queue in old(queues) then Ok(()) else Err(Gone)
      ensures model ==
        if r.Ok? then old(model)[queue := old(model)[queue].(items := [])] else old(model)
    {
      if queue !in queues {
        return Err(Gone);
      }
      var q := queues[queue];
      var empty := q.(waiting := 0, writeTo := 0, readFrom := q.length - 1);
      assert Items(slots[..], empty) == [];
      OneQueueMoved(slots[..], false, 0, 0, queues, queue, empty);
      queues := queues[queue := empty];
      model := model[queue := DequeOf(slots[..], empty)];
      r := Ok(());
    }
  }

  // ------------------------------------------------------------ the store --

  class QueueStore {
    const pool: ExtentPool
    const table: QueueTable
    /** `QUEUES`: how many descriptors there are. */
    const limit: nat

    ghost predicate Valid()
      reads this, pool, pool.free, table, table.slots
    {
      && PoolOk()
      && table.Valid() && |table.queues| <= limit
      && pool.live == LiveExtents(table.queues)
    }

    constructor (slotCount: nat, limit: nat)
      ensures Valid() && table.model == map[] && pool.used == 0
      ensures fresh(pool) && fresh(pool.free) && fresh(table) && fresh(table.slots)
    {
      pool := new ExtentPool(limit, slotCount);
      table := new QueueTable(slotCount);
      this.limit := limit;
      new;
      assert LiveExtents(table.queues) == {};
    }

    /** What the slots alone must satisfy while a create is under way. */
    ghost predicate PoolOk()
      reads this, pool, pool.free
    {
      && pool.Valid() && pool.stranded == {}
      && pool.capacity == table.slots.Length && pool.free.Length == limit
    }

    ghost function Holes(): set<Extent>
      requires pool.count <= pool.free.Length
      reads this, pool, pool.free
    {
      Elems(pool.free[..pool.count])
    }

    /** Neither a hole nor the tail has room for a queue of this length and kind. */
    predicate NoSlots(length: nat, kind: Kind)
      requires pool.count <= pool.free.Length
      reads this, pool, pool.free
    {
      && kind.CarriesData()
      && !Fits(pool.free[..pool.count], length)
      && pool.used + length > pool.capacity
    }

    /** `take_slots`: a queue without data asks for none and is handed the bump pointer. */
    method TakeSlots(length: nat, kind: Kind) returns (base: Option<nat>)
      requires PoolOk() && 0 < length
      modifies pool, pool.free
      ensures PoolOk()
      ensures base.None? <==> old(NoSlots(length, kind))
      ensures base.None? || !kind.CarriesData() ==>
        pool.live == old(pool.live) && pool.used == old(pool.used) && Holes() == old(Holes())
      ensures base.Some? && kind.CarriesData() ==>
        Extent(base.value, length) !in old(pool.live) && pool.live == old(pool.live) + {Extent(base.value, length)}
    {
      if !kind.CarriesData() {
        return Some(pool.used);
      }
      base := pool.Take(length);
    }

    /** The refused half of `new_queue`: slots taken a moment ago go back, and by the allocator having
        no memory that restores the pool it was taken from. */
    method GiveBack(base: nat, length: nat, ghost holes: set<Extent>, ghost used: nat)
      requires pool.Valid() && pool.stranded == {} && Extent(base, length) in pool.live
      requires Tiles(pool.live - {Extent(base, length)}, holes, used)
      requires |pool.live - {Extent(base, length)}| <= pool.free.Length
      modifies pool, pool.free
      ensures pool.Valid() && pool.stranded == {}
      ensures pool.live == old(pool.live) - {Extent(base, length)}
      ensures pool.used == used && Elems(pool.free[..pool.count]) == holes
    {
      assert pool.live - {Extent(base, length)} + pool.stranded == pool.live - {Extent(base, length)};
      pool.Give(base, length);
      assert pool.live + pool.stranded == pool.live;
      HistoryIndependent(pool.live, Elems(pool.free[..pool.count]), pool.used, holes, used);
    }

    /** `give_slots`, for a queue about to go. */
    method GiveSlots(q: Ring)
      requires PoolOk() && |pool.live| <= limit
      requires q.kind.CarriesData() ==> ExtentOf(q) in pool.live
      modifies pool, pool.free
      ensures PoolOk() && pool.live == old(pool.live) - Share(q.base, q.length, q.kind)
    {
      if q.kind.CarriesData() {
        assert pool.live - {ExtentOf(q)} + pool.stranded <= pool.live;
        pool.Give(q.base, q.length);
      }
    }

    /** `new_queue`.  Slots are taken before the descriptor, so a descriptor refused after slots
        were found gives them straight back: a refusal of any kind leaves every hole as it was. */
    method NewQueue(length: nat, kind: Kind) returns (r: Result<Handle>)
      requires Valid() && (kind.IsMutex() ==> length == 1)
      modifies table, pool, pool.free
      ensures Valid()
      ensures r.Err? ==> unchanged(table) && pool.used == old(pool.used) && Holes() == old(Holes())
      ensures r.Ok? ==>
        && r.value !in old(table.queues) && r.value in table.queues
        && table.model == old(table.model)[r.value := Deque(kind, length, [], None)]
      ensures r.Ok? <==> 0 < length && |old(table.queues)| < limit && !old(NoSlots(length, kind))
      ensures r.Err? ==> r.error == if length == 0 then InvalidArgument else OutOfRoom
    {
      hide LiveExtents, Separate, AllStored, ModelOf, Tiles, Partition, Coalesced, ClearOf, Elems, Distinct;
      if length == 0 {
        return Err(InvalidArgument);
      }
      ghost var holes, used := Holes(), pool.used;
      assert pool.live + pool.stranded == pool.live;
      var base := TakeSlots(length, kind);
      if base.None? {
        return Err(OutOfRoom);
      }
      if |table.queues| >= limit {
        if kind.CarriesData() {
          ExtentsAtMostQueues(table.queues);
          assert pool.live - {Extent(base.value, length)} == old(pool.live);
          GiveBack(base.value, length, holes, used);
        }
        return Err(OutOfRoom);
      }
      assert pool.live + pool.stranded == pool.live;
      var h := table.Insert(base.value, length, kind, Holes(), pool.used);
      r := Ok(h);
    }

    /** `queue_delete`: the handle goes stale and the slots go back.  With one list entry per
        descriptor, nothing is ever lost by it. */
    method QueueDelete(queue: Handle) returns (r: Result<()>)
      requires Valid()
      modifies table, pool, pool.free
      ensures Valid()
      ensures r == if queue in old(table.queues) then Ok(()) else Err(Gone)
      ensures r.Ok? ==> table.model == old(table.model) - {queue}
      ensures r.Err? ==> unchanged(table) && unchanged(pool) && unchanged(pool.free)
    {
      if queue !in table.queues {
        return Err(Gone);
      }
      ExtentsAtMostQueues(table.queues);
      GiveSlots(table.queues[queue]);
      table.Discard(queue);
      r := Ok(());
    }
  }
}
