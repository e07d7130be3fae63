/** One queue as a ring in the shared slot pool (`Queue`, `copy_data_to_queue` and `queue_take` in
    queue.rs), and the bounded double-ended queue it stands for.

    `readFrom` points at the item read last, so a send to the front is one step back and a read is a
    step forward first. */
module QueueRings {
  import opened Basics
  import opened Extents

  type Value = nat

  datatype Kind = Queue | Set | Semaphore | Mutex | RecursiveMutex {
    predicate CarriesData() { Queue? || Set? }
    predicate IsMutex() { Mutex? || RecursiveMutex? }
  }

  datatype Position = Back | Front | Overwrite

  datatype Ring = Ring(
    base: nat, length: nat, waiting: nat, readFrom: nat, writeTo: nat,
    kind: Kind, holder: Option<TaskId>)

  function NewRing(base: nat, length: nat, kind: Kind): Ring
    requires 0 < length
  {
    Ring(base, length, 0, length - 1, 0, kind, None)
  }

  function WrapNext(index: nat, length: nat): nat {
    if index + 1 >= length then 0 else index + 1
  }

  function WrapPrev(index: nat, length: nat): nat
    requires 0 < length
  {
    if index == 0 then length - 1 else index - 1
  }

  /** Where item k of a ring last read at `readFrom` lies. */
  function Cell(readFrom: nat, k: nat, length: nat): (cell: nat)
    requires readFrom < length && k <= length
    ensures cell < length
  {
    var first := WrapNext(readFrom, length);
    if first + k >= length then first + k - length else first + k
  }

  /** The cursors count modulo the length: in particular `writeTo`, which is cell `waiting`, is
      (readFrom + 1 + waiting) mod length. */
  lemma CellIsModular(readFrom: nat, k: nat, length: nat)
    requires readFrom < length && k <= length
    ensures Cell(readFrom, k, length) == (readFrom + 1 + k) % length
  {
    var sum := readFrom + 1 + k;
    var turns := if sum < length then 0 else if sum < 2 * length then 1 else 2;
    Remainder(turns, sum - turns * length, length);
  }

  predicate RingOk(q: Ring) {
    && 0 < q.length
    && q.waiting <= q.length
    && q.readFrom < q.length
    && q.writeTo < q.length
    && (q.kind.CarriesData() ==> q.writeTo == Cell(q.readFrom, q.waiting, q.length))
    && (q.kind.IsMutex() ==> q.length == 1 && (q.holder.Some? ==> q.waiting == 0))
  }

  predicate Stored(q: Ring, slots: nat) {
    RingOk(q) && (q.kind.CarriesData() ==> q.base + q.length <= slots)
  }

  function ExtentOf(q: Ring): Extent { Extent(q.base, q.length) }

  // ---------------------------------------------- the deque it stands for --

  /** What a queue is to its users.  A semaphore is a queue of nothings: only how many matters. */
  datatype Deque = Deque(kind: Kind, length: nat, items: seq<Value>, holder: Option<TaskId>)

  function Items(slots: seq<Value>, q: Ring): (items: seq<Value>)
    requires Stored(q, |slots|)
    ensures |items| == q.waiting
  {
    if q.kind.CarriesData() then
      seq(q.waiting, k requires 0 <= k < q.waiting => slots[q.base + Cell(q.readFrom, k, q.length)])
    else
      seq(q.waiting, _ => 0)
  }

  function DequeOf(slots: seq<Value>, q: Ring): Deque
    requires Stored(q, |slots|)
  {
    Deque(q.kind, q.length, Items(slots, q), q.holder)
  }

  /** A send.  An overwrite replaces the front item, and is an arrival only if there was none. */
  function Put(d: Deque, value: Value, position: Position): Deque {
    var v := if d.kind.CarriesData() then value else 0;
    var items := match position
      case Back => d.items + [v]
      case Front => [v] + d.items
      case Overwrite => if d.items == [] then [v] else [v] + d.items[1..];
    d.(items := items, holder := if d.kind.IsMutex() then None else d.holder)
  }

  /** A receive; taking a mutex makes the caller its holder. */
  function Got(d: Deque, caller: TaskId): Deque
    requires d.items != []
  {
    d.(items := d.items[1..], holder := if d.kind.IsMutex() then Some(caller) else d.holder)
  }

  /** What a send leaves, item by item: of a queue of data the value where the position says, of the others one
      more unless an overwrite finds one, and a mutex nobody's. */
  predicate PutOutcome(d: Deque, value: Value, position: Position, after: Deque) {
    && after.kind == d.kind && after.length == d.length
    && after.holder == (if d.kind == Mutex || d.kind == RecursiveMutex then None else d.holder)
    && |after.items| == (if position.Overwrite? && |d.items| > 0 then |d.items| else |d.items| + 1)
    && (d.kind == Queue || d.kind == Set ==>
      if position.Back? then after.items[|d.items|] == value && forall i :: 0 <= i < |d.items| ==> after.items[i] == d.items[i]
      else
        && after.items[0] == value
        && forall i :: 0 < i < |after.items| ==> after.items[i] == d.items[if position.Front? then i - 1 else i])
  }

  lemma PutExactly(d: Deque, value: Value, position: Position)
    ensures PutOutcome(d, value, position, Put(d, value, position))
  {
  }

  /** And what a receive leaves: all but the front item, and a mutex the caller's. */
  predicate GotOutcome(d: Deque, caller: TaskId, after: Deque) {
    && after.kind == d.kind && after.length == d.length && d.items != []
    && after.holder == (if d.kind == Mutex || d.kind == RecursiveMutex then Some(caller) else d.holder)
    && |after.items| == |d.items| - 1 && forall i :: 0 <= i < |after.items| ==> after.items[i] == d.items[i + 1]
  }

  // ------------------------------------------------------- over any history --

  datatype Use = Sends(value: Value, position: Position) | Takes(caller: TaskId)

  function Used(d: Deque, u: Use): Deque {
    match u
    case Sends(value, position) => if |d.items| >= d.length && !position.Overwrite? then d else Put(d, value, position)
    case Takes(caller) => if d.items == [] then d else Got(d, caller)
  }

  /** What arrives with a use, and what it hands over. */
  function Arrives(d: Deque, u: Use): seq<Value> {
    match u
    case Sends(value, position) =>
      if position.Overwrite? then (if d.items == [] then [value] else []) else if |d.items| >= d.length then [] else [value]
    case Takes(_) => []
  }

  function HandsOver(d: Deque, u: Use): seq<Value> {
    if u.Takes? && d.items != [] then [d.items[0]] else []
  }

  function UsedAll(d: Deque, uses: seq<Use>): Deque
    decreases |uses|
  {
    if uses == [] then d else UsedAll(Used(d, uses[0]), uses[1..])
  }

  function Arrivals(d: Deque, uses: seq<Use>): seq<Value>
    decreases |uses|
  {
    if uses == [] then [] else Arrives(d, uses[0]) + Arrivals(Used(d, uses[0]), uses[1..])
  }

  function Handed(d: Deque, uses: seq<Use>): seq<Value>
    decreases |uses|
  {
    if uses == [] then [] else HandsOver(d, uses[0]) + Handed(Used(d, uses[0]), uses[1..])
  }

  /** First in, first out: over any history of sends to the back and receives, what was handed over, followed by
      what is left, is what was there followed by what arrived. */
  lemma {:induction false} FirstInFirstOut(d: Deque, uses: seq<Use>)
    requires d.kind.CarriesData() && forall u :: u in uses && u.Sends? ==> u.position.Back?
    ensures d.items + Arrivals(d, uses) == Handed(d, uses) + UsedAll(d, uses).items
    decreases |uses|
  {
    hide Used, Arrives, HandsOver;
    if uses != [] {
      var e, rest := Used(d, uses[0]), uses[1..];
      assert uses[0] in uses && forall u :: u in rest ==> u in uses;
      OneUse(d, uses[0]);
      FirstInFirstOut(e, rest);
      Joined(d.items, Arrives(d, uses[0]), HandsOver(d, uses[0]), e.items, Arrivals(e, rest), Handed(e, rest), UsedAll(e, rest).items);
    }
  }

  lemma OneUse(d: Deque, u: Use)
    requires d.kind.CarriesData() && (u.Sends? ==> u.position.Back?)
    ensures Used(d, u).kind == d.kind && d.items + Arrives(d, u) == HandsOver(d, u) + Used(d, u).items
  {
  }

  lemma Joined(start: seq<Value>, in1: seq<Value>, out1: seq<Value>, middle: seq<Value>, in2: seq<Value>, out2: seq<Value>, end: seq<Value>)
    requires start + in1 == out1 + middle && middle + in2 == out2 + end
    ensures start + (in1 + in2) == (out1 + out2) + end
  {
    assert start + (in1 + in2) == (start + in1) + in2;
    assert (out1 + middle) + in2 == out1 + (middle + in2);
    assert out1 + (out2 + end) == (out1 + out2) + end;
  }

  /** Of every kind and from every position: what was there and what arrived is what was handed over and what is
      left, and there is never more than there is room for. */
  lemma {:induction false} NothingLostOrMadeUp(d: Deque, uses: seq<Use>)
    requires |d.items| <= d.length && 0 < d.length
    ensures var e := UsedAll(d, uses);
      && |d.items| + |Arrivals(d, uses)| == |Handed(d, uses)| + |e.items| && |e.items| <= e.length == d.length
    decreases |uses|
  {
    if uses != [] { NothingLostOrMadeUp(Used(d, uses[0]), uses[1..]); }
  }

  // ------------------------------------------------- what the code does --

  /** `copy_data_to_queue`: the slot a send writes. */
  function SendIndex(q: Ring, position: Position): nat {
    if position.Back? then q.writeTo else q.readFrom
  }

  /** `copy_data_to_queue`: the descriptor after it. */
  function AfterSend(q: Ring, position: Position): Ring
    requires 0 < q.length
  {
    var counted := !(position.Overwrite? && q.waiting > 0);
    var waiting := if counted then q.waiting + 1 else q.waiting;
    if q.kind.CarriesData() then
      if position.Back? then
        q.(writeTo := WrapNext(q.writeTo, q.length), waiting := waiting)
      else
        q.(readFrom := WrapPrev(q.readFrom, q.length), waiting := waiting)
    else if q.kind.IsMutex() then
      q.(holder := None, waiting := waiting)
    else
      q.(waiting := waiting)
  }

  /** `queue_take`: the descriptor after an item is read. */
  function AfterTake(q: Ring, caller: TaskId): Ring
    requires 0 < q.waiting
  {
    var read := if q.kind.CarriesData() then WrapNext(q.readFrom, q.length) else q.readFrom;
    q.(readFrom := read, waiting := q.waiting - 1,
       holder := if q.kind.IsMutex() then Some(caller) else q.holder)
  }

  /** The room a send needs; an overwrite needs none, but must not meet items on a longer ring of data. */
  predicate MaySend(q: Ring, position: Position) {
    if position.Overwrite? then !q.kind.CarriesData() || q.waiting == 0 || q.length == 1 else q.waiting < q.length
  }

  /** An overwrite leaves a ring of data a ring exactly when there was nothing to overwrite or the
      ring has the one slot; anywhere else it moves the read cursor under the write cursor. */
  lemma OverwriteKeepsRing(q: Ring)
    requires RingOk(q) && q.kind.CarriesData()
    ensures RingOk(AfterSend(q, Overwrite)) <==> q.waiting == 0 || q.length == 1
  {
    var r := AfterSend(q, Overwrite);
    if q.waiting > 0 && q.length > 1 {
      assert r.writeTo != Cell(r.readFrom, r.waiting, r.length);
    }
  }

  lemma SendKeepsRing(q: Ring, position: Position)
    requires RingOk(q) && MaySend(q, position)
    ensures RingOk(AfterSend(q, position))
  {
  }

  /** A step back of the cursor renumbers the items by one. */
  lemma CellAfterStepBack(readFrom: nat, k: nat, length: nat)
    requires readFrom < length && k < length
    ensures Cell(WrapPrev(readFrom, length), k + 1, length) == Cell(readFrom, k, length)
    ensures Cell(WrapPrev(readFrom, length), 0, length) == readFrom
  {
  }

  /** Different items of one ring lie in different slots. */
  lemma CellsDiffer(readFrom: nat, j: nat, k: nat, length: nat)
    requires readFrom < length && j < length && k < length && j != k
    ensures Cell(readFrom, j, length) != Cell(readFrom, k, length)
  {
  }

  /** A send to the back is read last ... */
  lemma SentBack(slots: seq<Value>, after: seq<Value>, q: Ring, value: Value)
    requires Stored(q, |slots|) && |after| == |slots| && MaySend(q, Back) && q.kind.CarriesData()
    requires after == slots[q.base + SendIndex(q, Back) := value] && RingOk(AfterSend(q, Back))
    ensures Items(after, AfterSend(q, Back)) == Items(slots, q) + [value]
  {
    var was, now := Items(slots, q), Items(after, AfterSend(q, Back));
    forall k: nat | k < q.waiting ensures now[k] == was[k] {
      CellsDiffer(q.readFrom, k, q.waiting, q.length);
    }
  }

  /** ... and one to the front, or an overwrite, is read next. */
  lemma SentFront(slots: seq<Value>, after: seq<Value>, q: Ring, value: Value, position: Position)
    requires Stored(q, |slots|) && |after| == |slots| && MaySend(q, position) && q.kind.CarriesData()
    requires !position.Back? && RingOk(AfterSend(q, position))
    requires after == slots[q.base + SendIndex(q, position) := value]
    ensures Items(after, AfterSend(q, position)) == [value] + if q.waiting < q.length then Items(slots, q) else []
  {
    var was, now := Items(slots, q), Items(after, AfterSend(q, position));
    CellAfterStepBack(q.readFrom, 0, q.length);
    if q.waiting < q.length {
      forall k: nat | k < q.waiting ensures now[k + 1] == was[k] {
        CellAfterStepBack(q.readFrom, k, q.length);
      }
    }
  }

  /** One send is one `Put` on the deque. */
  lemma SendIsPut(slots: seq<Value>, after: seq<Value>, q: Ring, value: Value, position: Position)
    requires Stored(q, |slots|) && |after| == |slots| && MaySend(q, position)
    requires q.kind.CarriesData() ==> after == slots[q.base + SendIndex(q, position) := value]
    ensures Stored(AfterSend(q, position), |after|)
    ensures DequeOf(after, AfterSend(q, position)) == Put(DequeOf(slots, q), value, position)
  {
    SendKeepsRing(q, position);
    if q.kind.CarriesData() {
      if position.Back? {
        SentBack(slots, after, q, value);
      } else {
        SentFront(slots, after, q, value, position);
        if q.waiting == q.length { assert Items(slots, q)[1..] == []; }
      }
    }
  }

  /** One receive hands back the front item and leaves the rest. */
  lemma TakeIsGot(slots: seq<Value>, q: Ring, caller: TaskId)
    requires Stored(q, |slots|) && 0 < q.waiting
    ensures Stored(AfterTake(q, caller), |slots|)
    ensures DequeOf(slots, AfterTake(q, caller)) == Got(DequeOf(slots, q), caller)
    ensures q.kind.CarriesData() ==>
      Items(slots, q)[0] == slots[q.base + WrapNext(q.readFrom, q.length)]
  {
    var r := AfterTake(q, caller);
    assert Items(slots, r) == Items(slots, q)[1..];
  }

  /** A write inside one queue's extent is invisible to a queue whose extent is apart from it. */
  lemma WriteElsewhere(slots: seq<Value>, at: nat, value: Value, g: Ring, home: Extent)
    requires Stored(g, |slots|) && at < |slots| && home.Has(at)
    requires g.kind.CarriesData() ==> Apart(ExtentOf(g), home)
    ensures DequeOf(slots[at := value], g) == DequeOf(slots, g)
  {
    assert Items(slots[at := value], g) == Items(slots, g);
  }
}
