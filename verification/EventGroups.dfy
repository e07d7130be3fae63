/** Event groups, as events.rs has them: what a waiter waits for is packed into its list item, and a
    set walks the list of waiters while it takes the satisfied ones off. */
module EventGroups {
  import opened Basics

  /** A word is the set of its one bits, numbered from the low end: `|` is union, `&` intersection, and
      `& !` difference. */
  type Word = set<nat>

  const CLEAR_EVENTS_ON_EXIT: Word := {24}
  const UNBLOCKED_DUE_TO_BIT_SET: Word := {25}
  const WAIT_FOR_ALL_BITS: Word := {26}
  const IN_USE: Word := {31}
  /** The top byte, which the three flags and `IN_USE` share. */
  const CONTROL: Word := {24, 25, 26, 27, 28, 29, 30, 31}

  /** What a caller may set or wait for: bits below the top byte. */
  predicate IsBits(b: Word) { b !! CONTROL }

  datatype Condition = Condition(waitFor: Word, clear: bool, all: bool)

  /** `prvTestWaitCondition`. */
  predicate Met(current: Word, c: Condition) {
    if c.all then c.waitFor <= current else current * c.waitFor != {}
  }

  /** A condition bit by bit: every bit of it is there, or one is. */
  predicate Satisfied(current: Word, waitFor: Word, all: bool) {
    if all then forall b :: b in waitFor ==> b in current else exists b :: b in waitFor && b in current
  }

  lemma TestedBitByBit(current: Word, c: Condition)
    ensures Met(current, c) <==> Satisfied(current, c.waitFor, c.all)
  {
    assert forall b :: b in current * c.waitFor <==> b in c.waitFor && b in current;
    if !c.all && current * c.waitFor != {} {
      var b :| b in current * c.waitFor;
    }
  }

  /** A condition as the item value of a waiter, and back. */
  function Pack(c: Condition): Word {
    c.waitFor + (if c.clear then CLEAR_EVENTS_ON_EXIT else {}) + (if c.all then WAIT_FOR_ALL_BITS else {}) + IN_USE
  }

  function Unpack(value: Word): Condition {
    Condition(value - CONTROL, value * CLEAR_EVENTS_ON_EXIT != {}, value * WAIT_FOR_ALL_BITS != {})
  }

  /** The answer an unblocker leaves in the item value, and what a woken task reads back. */
  function Answer(bits: Word): Word { bits + UNBLOCKED_DUE_TO_BIT_SET + IN_USE }

  lemma PackRoundTrips(c: Condition)
    requires IsBits(c.waitFor)
    ensures Unpack(Pack(c)) == c
    ensures Pack(c) * IN_USE != {} && Pack(c) * UNBLOCKED_DUE_TO_BIT_SET == {}
  {
  }

  lemma AnswerRoundTrips(bits: Word)
    requires IsBits(bits)
    ensures Answer(bits) - CONTROL == bits && Answer(bits) * UNBLOCKED_DUE_TO_BIT_SET != {}
  {
  }

  /** Fewer bits satisfy no more: what a clear can do to a waiter is nothing. */
  lemma FewerBits(current: Word, cleared: Word, c: Condition)
    ensures Met(current - cleared, c) ==> Met(current, c)
  {
  }

  // ------------------------------------------------------ the group's state --

  /** `values` are the event item values of the tasks, waiting or not. */
  datatype Group = Group(bits: Word, waiting: seq<TaskId>, values: map<TaskId, Word>, ready: seq<TaskId>)

  function ValueOf(values: map<TaskId, Word>, t: TaskId): Word {
    if t in values then values[t] else {}
  }

  function ConditionOf(values: map<TaskId, Word>, t: TaskId): Condition { Unpack(ValueOf(values, t)) }

  /** Nobody waits for what is there, and every waiter's item holds a condition and no answer yet. */
  predicate Settled(g: Group) {
    && IsBits(g.bits) && Distinct(g.waiting)
    && forall t :: t in g.waiting ==> Waits(g, t)
  }

  predicate Waits(g: Group, t: TaskId) {
    && ValueOf(g.values, t) * IN_USE != {} && ValueOf(g.values, t) * UNBLOCKED_DUE_TO_BIT_SET == {}
    && !Met(g.bits, ConditionOf(g.values, t))
  }

  /** The waiters a value satisfies, those it does not, and what the satisfied ones want cleared. */
  datatype Sweep = Sweep(woken: seq<TaskId>, kept: seq<TaskId>, toClear: Word)

  function SweepOf(list: seq<TaskId>, values: map<TaskId, Word>, current: Word): Sweep {
    if list == [] then Sweep([], [], {}) else
      var t := list[|list| - 1];
      var before := SweepOf(list[..|list| - 1], values, current);
      var c := ConditionOf(values, t);
      if Met(current, c) then
        Sweep(before.woken + [t], before.kept, if c.clear then before.toClear + c.waitFor else before.toClear)
      else
        before.(kept := before.kept + [t])
  }

  function Answered(values: map<TaskId, Word>, tasks: seq<TaskId>, value: Word): map<TaskId, Word> {
    if tasks == [] then values else
      Answered(values, tasks[..|tasks| - 1], value)[tasks[|tasks| - 1] := value]
  }

  /** What setting bits does: everybody the new value satisfies is readied with it, and the union of
      what they asked to have cleared goes. */
  function SetBits(g: Group, set_: Word): Group {
    var after := g.bits + set_;
    var sweep := SweepOf(g.waiting, g.values, after);
    Group(after - sweep.toClear, sweep.kept, Answered(g.values, sweep.woken, Answer(after)), g.ready + sweep.woken)
  }

  function ClearBits(g: Group, cleared: Word): Group { g.(bits := g.bits - cleared) }

  function Park(g: Group, t: TaskId, c: Condition): Group {
    g.(waiting := g.waiting + [t], values := g.values[t := Pack(c)])
  }

  datatype Outcome = Blocked | Done(bits: Word)

  function Wait(g: Group, t: TaskId, c: Condition, ticks: nat): (Group, Outcome) {
    if Met(g.bits, c) then (if c.clear then ClearBits(g, c.waitFor) else g, Done(g.bits))
    else if ticks == 0 then (g, Done(g.bits))
    else (Park(g, t, c), Blocked)
  }

  function Sync(g: Group, t: TaskId, set_: Word, waitFor: Word, ticks: nat): (Group, Outcome) {
    var h := SetBits(g, set_);
    if waitFor <= g.bits + set_ then (ClearBits(h, waitFor), Done(g.bits + set_))
    else if ticks == 0 then (h, Done(h.bits))
    else (Park(h, t, Condition(waitFor, true, true)), Blocked)
  }

  /** The tick, or an abort, takes a waiter off the list and leaves its item value alone. */
  function Expire(g: Group, t: TaskId): Group { g.(waiting := Without(g.waiting, t)) }

  /** What a task that waited is handed once it runs again: the answer it was left, or, woken by time, the
      bits as they are now. */
  function Finish(g: Group, t: TaskId, c: Condition, order: Word): (Group, Word) {
    var value, h := ValueOf(g.values, t), g.(values := g.values[t := order]);
    if value * UNBLOCKED_DUE_TO_BIT_SET != {} then (h, value - CONTROL)
    else (if Met(g.bits, c) && c.clear then ClearBits(h, c.waitFor) else h, g.bits - CONTROL)
  }

  /** A priority change writes the order of an item that is not in use. */
  function Reorder(g: Group, t: TaskId, order: Word): Group {
    if ValueOf(g.values, t) * IN_USE == {} then g.(values := g.values[t := order]) else g
  }

  // ----------------------------------------------------- what a sweep does --

  lemma {:induction false} SweepMembers(list: seq<TaskId>, values: map<TaskId, Word>, current: Word)
    ensures var s := SweepOf(list, values, current);
      && (forall t :: t in s.woken <==> t in list && Met(current, ConditionOf(values, t)))
      && (forall t :: t in s.kept <==> t in list && !Met(current, ConditionOf(values, t)))
      && |s.woken| + |s.kept| == |list|
  {
    if list != [] {
      var n := |list| - 1;
      SweepMembers(list[..n], values, current);
      assert list == list[..n] + [list[n]];
    }
  }

  lemma {:induction false} SweepDistinct(list: seq<TaskId>, values: map<TaskId, Word>, current: Word)
    requires Distinct(list)
    ensures Distinct(SweepOf(list, values, current).kept)
    ensures Distinct(SweepOf(list, values, current).woken)
  {
    if list != [] {
      var n := |list| - 1;
      SweepDistinct(list[..n], values, current);
      SweepMembers(list[..n], values, current);
      assert list[n] !in list[..n];
    }
  }

  /** Exactly the bits some woken waiter asked to have cleared are cleared. */
  lemma {:induction false} SweepClears(list: seq<TaskId>, values: map<TaskId, Word>, current: Word, bit: nat)
    ensures bit in SweepOf(list, values, current).toClear <==>
      exists t :: t in SweepOf(list, values, current).woken
        && ConditionOf(values, t).clear && bit in ConditionOf(values, t).waitFor
  {
    if list != [] {
      SweepClears(list[..|list| - 1], values, current, bit);
    }
  }

  lemma {:induction false} AnsweredAt(values: map<TaskId, Word>, tasks: seq<TaskId>, value: Word, t: TaskId)
    ensures ValueOf(Answered(values, tasks, value), t) == if t in tasks then value else ValueOf(values, t)
  {
    if tasks != [] {
      var n := |tasks| - 1;
      AnsweredAt(values, tasks[..n], value, t);
      assert tasks == tasks[..n] + [tasks[n]];
    }
  }

  lemma AnsweredGrows(values: map<TaskId, Word>, tasks: seq<TaskId>, value: Word, t: TaskId)
    ensures Answered(values, tasks + [t], value) == Answered(values, tasks, value)[t := value]
  {
    assert (tasks + [t])[..|tasks|] == tasks;
  }

  // ------------------------------------- nobody sleeps on what is there --

  /** A set wakes exactly the waiters it satisfies, each with the bits that did it, leaves the others
      as they were, and leaves nobody asleep on a condition that holds. */
  lemma SetWakesExactlyTheSatisfied(g: Group, set_: Word)
    requires Settled(g) && IsBits(set_)
    ensures var h, after := SetBits(g, set_), g.bits + set_;
      && Settled(h) && g.ready <= h.ready
      && (forall t :: t in h.ready[|g.ready|..] <==> t in g.waiting && Met(after, ConditionOf(g.values, t)))
      && (forall t :: t in h.waiting <==> t in g.waiting && !Met(after, ConditionOf(g.values, t)))
      && (forall t :: t in h.ready[|g.ready|..] ==> ValueOf(h.values, t) == Answer(after))
      && (forall t :: t !in h.ready[|g.ready|..] ==> ValueOf(h.values, t) == ValueOf(g.values, t))
  {
    var h, after := SetBits(g, set_), g.bits + set_;
    var s := SweepOf(g.waiting, g.values, after);
    SweepMembers(g.waiting, g.values, after);
    SweepDistinct(g.waiting, g.values, after);
    assert h.ready[|g.ready|..] == s.woken;
    forall t ensures ValueOf(h.values, t) == if t in s.woken then Answer(after) else ValueOf(g.values, t) {
      AnsweredAt(g.values, s.woken, Answer(after), t);
    }
    forall t | t in h.waiting ensures Waits(h, t) {
      FewerBits(after, s.toClear, ConditionOf(g.values, t));
    }
  }

  /** These bits are what a waiter with this in its item waits for: bit 26 says that it waits for them all. */
  predicate WokenBy(current: Word, value: Word) { Satisfied(current, value - CONTROL, 26 in value) }

  function WokenIn(g: Group, current: Word): set<TaskId> {
    set t | t in g.waiting && WokenBy(current, ValueOf(g.values, t))
  }

  /** What a set leaves, bit by bit: it wakes exactly those whose bits are there then, in the order they wait,
      with the bits that were there and the mark 25; the others wait on in their order; and a bit goes exactly if
      one that it wakes has it and bit 24 in its item. */
  ghost predicate SetOutcome(g: Group, h: Group, set_: Word) {
    var after := g.bits + set_;
    var woken := WokenIn(g, after);
    && h.ready == g.ready + Among(g.waiting, woken)
    && h.waiting == Among(g.waiting, (set t | t in g.waiting) - woken)
    && (forall t :: ValueOf(h.values, t) == if t in woken then after + {25, 31} else ValueOf(g.values, t))
    && forall b :: b in h.bits <==>
      b in after && !exists t :: t in woken && 24 in ValueOf(g.values, t) && b in ValueOf(g.values, t) - CONTROL
  }

  lemma ReadFromItem(g: Group, current: Word, t: TaskId)
    ensures Met(current, ConditionOf(g.values, t)) <==> WokenBy(current, ValueOf(g.values, t))
    ensures ConditionOf(g.values, t).clear <==> 24 in ValueOf(g.values, t)
  {
    OneBit(ValueOf(g.values, t), 24);
    OneBit(ValueOf(g.values, t), 26);
    TestedBitByBit(current, ConditionOf(g.values, t));
  }

  lemma OneBit(value: Word, b: nat)
    ensures value * {b} != {} <==> b in value
  {
    assert b in value ==> b in value * {b};
  }

  lemma {:induction false} SweepInOrder(list: seq<TaskId>, values: map<TaskId, Word>, current: Word, woken: set<TaskId>, others: set<TaskId>)
    requires forall t :: t in list ==> (t in woken <==> Met(current, ConditionOf(values, t))) && (t in others <==> t !in woken)
    ensures SweepOf(list, values, current).woken == Among(list, woken)
    ensures SweepOf(list, values, current).kept == Among(list, others)
  {
    if list != [] {
      var n := |list| - 1;
      assert list == list[..n] + [list[n]];
      SweepInOrder(list[..n], values, current, woken, others);
      AmongSplits(list[..n], [list[n]], woken);
      AmongSplits(list[..n], [list[n]], others);
      assert Among([list[n]], woken) == if list[n] in woken then [list[n]] else [];
      assert Among([list[n]], others) == if list[n] in others then [list[n]] else [];
    }
  }

  /** The sweep's waiters are those of `WokenIn`. */
  lemma SweepWakes(g: Group, current: Word)
    ensures var s, woken := SweepOf(g.waiting, g.values, current), WokenIn(g, current);
      && s.woken == Among(g.waiting, woken) && s.kept == Among(g.waiting, (set t | t in g.waiting) - woken)
      && forall t :: t in s.woken <==> t in woken
  {
    hide Met, WokenBy, SweepOf;
    var woken := WokenIn(g, current);
    forall t ensures Met(current, ConditionOf(g.values, t)) <==> WokenBy(current, ValueOf(g.values, t)) {
      ReadFromItem(g, current, t);
    }
    SweepInOrder(g.waiting, g.values, current, woken, (set t | t in g.waiting) - woken);
    AmongFacts(g.waiting, woken);
  }

  lemma SetClearsBit(g: Group, set_: Word, b: nat)
    ensures b in SetBits(g, set_).bits <==>
      b in g.bits + set_ && !exists t :: t in WokenIn(g, g.bits + set_) && 24 in ValueOf(g.values, t) && b in ValueOf(g.values, t) - CONTROL
  {
    hide WokenIn;
    var after := g.bits + set_;
    SweepWakes(g, after);
    SweepClears(g.waiting, g.values, after, b);
    forall t ensures ConditionOf(g.values, t).clear <==> 24 in ValueOf(g.values, t) {
      ReadFromItem(g, after, t);
    }
  }

  lemma SetExactly(g: Group, set_: Word)
    ensures SetOutcome(g, SetBits(g, set_), set_)
  {
    hide WokenIn, SweepOf, Answered;
    var h, after := SetBits(g, set_), g.bits + set_;
    SweepWakes(g, after);
    forall t ensures ValueOf(h.values, t) == if t in WokenIn(g, after) then after + {25, 31} else ValueOf(g.values, t) {
      AnsweredAt(g.values, SweepOf(g.waiting, g.values, after).woken, Answer(after), t);
      assert Answer(after) == after + {25, 31};
    }
    hide SetBits;
    forall b ensures b in h.bits <==>
      b in after && !exists t :: t in WokenIn(g, after) && 24 in ValueOf(g.values, t) && b in ValueOf(g.values, t) - CONTROL
    {
      SetClearsBit(g, set_, b);
    }
  }

  /** A waiter that the bits satisfy, and that asked to have this one cleared. */
  predicate AsksCleared(g: Group, current: Word, t: TaskId, bit: nat) {
    var c := ConditionOf(g.values, t);
    t in g.waiting && Met(current, c) && c.clear && bit in c.waitFor
  }

  /** ... and of the bits it keeps exactly those nobody it woke asked to have cleared. */
  lemma SetClearsExactlyWhatWasAsked(g: Group, set_: Word, bit: nat)
    ensures bit in SetBits(g, set_).bits <==>
      bit in g.bits + set_ && !exists t :: AsksCleared(g, g.bits + set_, t, bit)
  {
    SweepClears(g.waiting, g.values, g.bits + set_, bit);
    SweepMembers(g.waiting, g.values, g.bits + set_);
    var woken := SweepOf(g.waiting, g.values, g.bits + set_).woken;
    assert forall t :: AsksCleared(g, g.bits + set_, t, bit) <==>
      t in woken && ConditionOf(g.values, t).clear && bit in ConditionOf(g.values, t).waitFor;
  }

  lemma ClearSettles(g: Group, cleared: Word)
    requires Settled(g)
    ensures Settled(ClearBits(g, cleared))
  {
    forall t | t in g.waiting ensures Waits(ClearBits(g, cleared), t) {
      FewerBits(g.bits, cleared, ConditionOf(g.values, t));
    }
  }

  lemma ParkSettles(g: Group, t: TaskId, c: Condition)
    requires Settled(g) && t !in g.waiting && IsBits(c.waitFor) && !Met(g.bits, c)
    ensures Settled(Park(g, t, c)) && ConditionOf(Park(g, t, c).values, t) == c
    ensures forall u :: u != t ==> ValueOf(Park(g, t, c).values, u) == ValueOf(g.values, u)
  {
    PackRoundTrips(c);
    var h := Park(g, t, c);
    forall u | u in h.waiting ensures Waits(h, u) {
      if u != t { assert u in g.waiting && Waits(g, u); }
    }
  }

  /** A wait ends at once exactly when it is satisfied or may not block, and otherwise parks its
      caller under the condition it asked for. */
  lemma WaitSettles(g: Group, t: TaskId, c: Condition, ticks: nat)
    requires Settled(g) && t !in g.waiting && IsBits(c.waitFor)
    ensures var (h, out) := Wait(g, t, c, ticks);
      && Settled(h)
      && (out.Blocked? <==> !Met(g.bits, c) && ticks > 0)
      && (out.Blocked? ==> t in h.waiting && ConditionOf(h.values, t) == c)
      && (out.Done? ==> out.bits == g.bits)
      && (out.Done? ==> h == g.(bits := if Met(g.bits, c) && c.clear then g.bits - c.waitFor else g.bits))
  {
    if Met(g.bits, c) {
      ClearSettles(g, c.waitFor);
    } else if ticks > 0 {
      ParkSettles(g, t, c);
    }
  }

  lemma SyncSettles(g: Group, t: TaskId, set_: Word, waitFor: Word, ticks: nat)
    requires Settled(g) && t !in g.waiting && IsBits(set_) && IsBits(waitFor)
    ensures var (h, out) := Sync(g, t, set_, waitFor, ticks);
      && Settled(h)
      && (out.Blocked? ==> t in h.waiting && ConditionOf(h.values, t) == Condition(waitFor, true, true))
      && (out.Blocked? <==> !(waitFor <= g.bits + set_) && ticks > 0)
      && (out.Done? && !(waitFor <= g.bits + set_) ==> h == SetBits(g, set_) && out.bits == h.bits)
      && (out.Done? && waitFor <= g.bits + set_ ==> waitFor <= out.bits && h.bits !! waitFor)
  {
    var h := SetBits(g, set_);
    SetWakesExactlyTheSatisfied(g, set_);
    if waitFor <= g.bits + set_ {
      ClearSettles(h, waitFor);
    } else if ticks > 0 {
      FewerBits(g.bits + set_, SweepOf(g.waiting, g.values, g.bits + set_).toClear, Condition(waitFor, true, true));
      ParkSettles(h, t, Condition(waitFor, true, true));
    }
  }

  lemma ExpireSettles(g: Group, t: TaskId)
    requires Settled(g)
    ensures Settled(Expire(g, t)) && forall u :: u in Expire(g, t).waiting <==> u in g.waiting && u != t
  {
    WithoutFacts(g.waiting, t);
    assert forall u :: u in g.waiting && u != t ==> Waits(g, u) && Waits(Expire(g, t), u);
  }

  lemma FinishSettles(g: Group, t: TaskId, c: Condition, order: Word)
    requires Settled(g) && t !in g.waiting
    ensures Settled(Finish(g, t, c, order).0)
    ensures forall u :: u != t ==> ValueOf(Finish(g, t, c, order).0.values, u) == ValueOf(g.values, u)
  {
    var h := g.(values := g.values[t := order]);
    assert forall u :: u in g.waiting ==> Waits(g, u) && Waits(h, u);
    ClearSettles(h, c.waitFor);
  }

  lemma ReorderSettles(g: Group, t: TaskId, order: Word)
    requires Settled(g)
    ensures Settled(Reorder(g, t, order))
    ensures forall u :: u in g.waiting || u != t ==> ValueOf(Reorder(g, t, order).values, u) == ValueOf(g.values, u)
  {
    assert t in g.waiting ==> Waits(g, t);
    assert forall u :: u in g.waiting ==> Waits(g, u) && Waits(Reorder(g, t, order), u);
  }

  // ------------------------------------------------------ over any history --

  datatype Event =
    | BitsSet(bits: Word)
    | BitsCleared(bits: Word)
    | WaitBegun(t: TaskId, c: Condition, ticks: nat)
    | SyncBegun(t: TaskId, set_: Word, waitFor: Word, ticks: nat)
    | TimedOut(t: TaskId)
    | Finished(t: TaskId, c: Condition, order: Word)
    | Reprioritised(t: TaskId, order: Word)

  /** A caller keeps to the low bits, and a task that waits makes no call. */
  predicate Can(g: Group, e: Event) {
    match e
    case BitsSet(bits) => IsBits(bits)
    case BitsCleared(_) => true
    case WaitBegun(t, c, _) => t !in g.waiting && IsBits(c.waitFor)
    case SyncBegun(t, set_, waitFor, _) => t !in g.waiting && IsBits(set_) && IsBits(waitFor)
    case TimedOut(t) => t in g.waiting
    case Finished(t, _, _) => t !in g.waiting
    case Reprioritised(_, _) => true
  }

  function Step(g: Group, e: Event): Group {
    match e
    case BitsSet(bits) => SetBits(g, bits)
    case BitsCleared(bits) => ClearBits(g, bits)
    case WaitBegun(t, c, ticks) => Wait(g, t, c, ticks).0
    case SyncBegun(t, set_, waitFor, ticks) => Sync(g, t, set_, waitFor, ticks).0
    case TimedOut(t) => Expire(g, t)
    case Finished(t, c, order) => Finish(g, t, c, order).0
    case Reprioritised(t, order) => Reorder(g, t, order)
  }

  lemma StepSettles(g: Group, e: Event)
    requires Settled(g) && Can(g, e)
    ensures Settled(Step(g, e))
  {
    hide Settled, SetBits, Wait, Sync, Expire, Finish, Reorder, IsBits;
    match e
    case BitsSet(bits) => SetWakesExactlyTheSatisfied(g, bits);
    case BitsCleared(bits) => ClearSettles(g, bits);
    case WaitBegun(t, c, ticks) => WaitSettles(g, t, c, ticks);
    case SyncBegun(t, set_, waitFor, ticks) => SyncSettles(g, t, set_, waitFor, ticks);
    case TimedOut(t) => ExpireSettles(g, t);
    case Finished(t, c, order) => FinishSettles(g, t, c, order);
    case Reprioritised(t, order) => ReorderSettles(g, t, order);
  }

  predicate CanRun(g: Group, events: seq<Event>)
    decreases |events|
  {
    events == [] || (Can(g, events[0]) && CanRun(Step(g, events[0]), events[1..]))
  }

  function Run(g: Group, events: seq<Event>): Group
    decreases |events|
  {
    if events == [] then g else Run(Step(g, events[0]), events[1..])
  }

  /** In every state that any history reaches, no waiter sleeps on a condition that holds. */
  lemma {:induction false} NobodySleepsOnWhatIsThere(g: Group, events: seq<Event>)
    requires Settled(g) && CanRun(g, events)
    ensures Settled(Run(g, events))
    ensures forall t :: t in Run(g, events).waiting ==> !WokenBy(Run(g, events).bits, ValueOf(Run(g, events).values, t))
    decreases |events|
  {
    hide Can, Step, Met, WokenBy;
    if events == [] {
      forall t | t in g.waiting ensures !WokenBy(g.bits, ValueOf(g.values, t)) {
        assert Waits(g, t);
        ReadFromItem(g, g.bits, t);
      }
    } else {
      StepSettles(g, events[0]);
      NobodySleepsOnWhatIsThere(Step(g, events[0]), events[1..]);
    }
  }

  /** A waiter still waits for what it asked for, or was readied with bits that satisfy it. */
  ghost predicate Served(g: Group, t: TaskId, c: Condition) {
    if t in g.waiting then ConditionOf(g.values, t) == c
    else t in g.ready && exists bits :: ValueOf(g.values, t) == Answer(bits) && IsBits(bits) && Satisfied(bits, c.waitFor, c.all)
  }

  /** Neither time nor the task itself has a part in this. */
  predicate Leaves(e: Event, t: TaskId) {
    match e
    case WaitBegun(u, _, _) => u != t
    case SyncBegun(u, _, _, _) => u != t
    case TimedOut(u) => u != t
    case Finished(u, _, _) => u != t
    case _ => true
  }

  lemma SetServes(g: Group, set_: Word, t: TaskId, c: Condition)
    requires Settled(g) && Served(g, t, c) && IsBits(set_)
    ensures Served(SetBits(g, set_), t, c)
  {
    SetWakesExactlyTheSatisfied(g, set_);
    var h, after := SetBits(g, set_), g.bits + set_;
    assert h.ready == g.ready + h.ready[|g.ready|..];
    if t in g.waiting && t !in h.waiting {
      TestedBitByBit(after, c);
      assert ValueOf(h.values, t) == Answer(after) && IsBits(after) && Satisfied(after, c.waitFor, c.all);
    }
    assert t !in g.waiting ==> t !in h.ready[|g.ready|..];
  }

  lemma StepServes(g: Group, e: Event, t: TaskId, c: Condition)
    requires Settled(g) && Can(g, e) && Served(g, t, c) && Leaves(e, t)
    ensures Served(Step(g, e), t, c)
  {
    hide SetBits, IsBits, Met, Satisfied;
    match e {
      case BitsSet(bits) => SetServes(g, bits, t, c);
      case BitsCleared(bits) =>
      case WaitBegun(u, d, ticks) =>
        assert (g.waiting + [u])[|g.waiting|] == u;
      case SyncBegun(u, set_, waitFor, ticks) => SetServes(g, set_, t, c);
      case TimedOut(u) => ExpireSettles(g, u);
      case Finished(u, d, order) => FinishSettles(g, u, d, order);
      case Reprioritised(u, order) => ReorderServes(g, u, order, t, c);
    }
  }

  lemma ReorderServes(g: Group, u: TaskId, order: Word, t: TaskId, c: Condition)
    requires Settled(g) && Served(g, t, c)
    ensures Served(Reorder(g, u, order), t, c)
  {
    ReorderSettles(g, u, order);
    if t !in g.waiting {
      var bits :| ValueOf(g.values, t) == Answer(bits) && IsBits(bits) && Satisfied(bits, c.waitFor, c.all);
      assert Answer(bits) * IN_USE != {} by { assert 31 in Answer(bits); }
      assert ValueOf(Reorder(g, u, order).values, t) == Answer(bits);
    }
  }

  /** No wake-up is lost and none is made up: until time takes it off or it reads its answer, a waiter
      waits under the condition it asked for, or was readied with bits that satisfy just that. */
  lemma {:induction false} WaitersAreServed(g: Group, events: seq<Event>, t: TaskId, c: Condition)
    requires Settled(g) && CanRun(g, events) && Served(g, t, c) && forall e :: e in events ==> Leaves(e, t)
    ensures Served(Run(g, events), t, c)
    decreases |events|
  {
    hide Can, Step, Settled, Served, Leaves;
    if events != [] {
      StepSettles(g, events[0]);
      StepServes(g, events[0], t, c);
      WaitersAreServed(Step(g, events[0]), events[1..], t, c);
    }
  }

  // --------------------------------------------------------- the list walk --

  function Head(list: seq<TaskId>): Option<TaskId> {
    if list == [] then None else Some(list[0])
  }

  /** Who stands behind a waiter. */
  function Next(list: seq<TaskId>, t: TaskId): Option<TaskId> {
    if list == [] then None
    else if list[0] == t then Head(list[1..])
    else Next(list[1..], t)
  }

  lemma {:induction false} AtBoundary(before: seq<TaskId>, t: TaskId, rest: seq<TaskId>)
    requires t !in before
    ensures Next(before + ([t] + rest), t) == Head(rest)
    ensures Without(before + ([t] + rest), t) == before + rest
  {
    var list := before + ([t] + rest);
    if before == [] {
      assert list == [t] + rest && list[1..] == rest;
    } else {
      assert list[0] == before[0] && list[1..] == before[1..] + ([t] + rest);
      AtBoundary(before[1..], t, rest);
      assert [before[0]] + (before[1..] + rest) == before + rest;
    }
  }

  /** One step of the walk, in terms of the sweep so far. */
  lemma SweepStep(done: seq<TaskId>, t: TaskId, rest: seq<TaskId>, values: map<TaskId, Word>, current: Word)
    requires Distinct(done + ([t] + rest))
    ensures var s := SweepOf(done, values, current);
      && t !in s.kept && t !in s.woken
      && ValueOf(Answered(values, s.woken, Answer(current)), t) == ValueOf(values, t)
      && Next(s.kept + ([t] + rest), t) == Head(rest)
      && Without(s.kept + ([t] + rest), t) == s.kept + rest
  {
    var s := SweepOf(done, values, current);
    var all := done + ([t] + rest);
    assert all[|done|] == t;
    assert forall i :: 0 <= i < |done| ==> all[i] == done[i];
    SweepMembers(done, values, current);
    AnsweredAt(values, s.woken, Answer(current), t);
    AtBoundary(s.kept, t, rest);
  }

  lemma SweepGrows(done: seq<TaskId>, t: TaskId, values: map<TaskId, Word>, current: Word)
    ensures var s, c := SweepOf(done, values, current), ConditionOf(values, t);
      SweepOf(done + [t], values, current) ==
        if Met(current, c) then
          Sweep(s.woken + [t], s.kept, if c.clear then s.toClear + c.waitFor else s.toClear)
        else s.(kept := s.kept + [t])
  {
    assert (done + [t])[..|done|] == done;
  }

  lemma NothingSwept(g: Group, current: Word)
    ensures SweepOf([], g.values, current) == Sweep([], [], {})
    ensures Answered(g.values, [], Answer(current)) == g.values
  {
  }

  class EventGroup {
    var bits: Word
    var waiting: seq<TaskId>
    var values: map<TaskId, Word>
    var ready: seq<TaskId>

    function View(): Group
      reads this
    {
      Group(bits, waiting, values, ready)
    }

    ghost predicate Valid()
      reads this
    {
      Settled(View())
    }

    constructor ()
      ensures Valid() && View() == Group({}, [], map[], [])
    {
      bits, waiting, values, ready := {}, [], map[], [];
    }

    /** `remove_from_unordered_event_list`: the answer goes into the item value, and the task is
        readied. */
    method RemoveFromUnorderedEventList(t: TaskId, value: Word)
      modifies this`waiting, this`values, this`ready
      ensures View() == Group(bits, Without(old(waiting), t), old(values)[t := value + IN_USE], old(ready) + [t])
    {
      values := values[t := value + IN_USE];
      waiting := Without(waiting, t);
      ready := ready + [t];
    }

    /** One turn of the walk: the waiter at hand is taken off if the bits satisfy it. */
    method Visit(this_: TaskId, current: Word, toClear: Word, ghost g: Group, ghost done: seq<TaskId>, ghost rest: seq<TaskId>)
      returns (clear: Word)
      requires Distinct(done + ([this_] + rest)) && Walked(g, current, done, [this_] + rest, toClear)
      modifies this`waiting, this`values, this`ready
      ensures Walked(g, current, done + [this_], rest, clear)
    {
      hide Distinct, SweepOf, Answered, Without;
      ghost var s := SweepOf(done, g.values, current);
      SweepStep(done, this_, rest, g.values, current);
      SweepGrows(done, this_, g.values, current);
      AnsweredGrows(g.values, s.woken, Answer(current), this_);
      clear := toClear;
      var value := ValueOf(values, this_);
      var control, waitedFor := value * CONTROL, value - CONTROL;
      assert Condition(waitedFor, control * CLEAR_EVENTS_ON_EXIT != {}, control * WAIT_FOR_ALL_BITS != {})
        == ConditionOf(g.values, this_);
      if Met(current, Condition(waitedFor, true, control * WAIT_FOR_ALL_BITS != {})) {
        if control * CLEAR_EVENTS_ON_EXIT != {} {
          clear := clear + waitedFor;
        }
        RemoveFromUnorderedEventList(this_, current + UNBLOCKED_DUE_TO_BIT_SET);
      }
      assert s.kept + ([this_] + rest) == s.kept + [this_] + rest;
      assert g.ready + (s.woken + [this_]) == g.ready + s.woken + [this_];
    }

    /** How far a walk is that has seen `done` and has `rest` to come. */
    ghost predicate Walked(g: Group, current: Word, done: seq<TaskId>, rest: seq<TaskId>, toClear: Word)
      reads this
    {
      var s := SweepOf(done, g.values, current);
      && bits == current && toClear == s.toClear
      && waiting == s.kept + rest && ready == g.ready + s.woken
      && values == Answered(g.values, s.woken, Answer(current))
    }

    /** The walk: the next waiter is read before this one is taken off the list. */
    method Walk(after: Word) returns (toClear: Word)
      requires Distinct(waiting) && bits == after
      modifies this`waiting, this`values, this`ready
      ensures Walked(old(View()), after, old(waiting), [], toClear)
    {
      hide Distinct, SweepOf, Answered;
      toClear := {};
      var item := Head(waiting);
      ghost var g, done, rest := View(), [], waiting;
      NothingSwept(g, after);
      while item.Some?
        invariant g.waiting == done + rest && item == Head(rest)
        invariant Walked(g, after, done, rest, toClear)
        decreases |rest|
      {
        var this_ := item.value;
        assert rest == [this_] + rest[1..];
        SweepStep(done, this_, rest[1..], g.values, after);
        var next := Next(waiting, this_);
        toClear := Visit(this_, after, toClear, g, done, rest[1..]);
        done, rest := done + [this_], rest[1..];
        item := next;
      }
      assert done == g.waiting;
    }

    /** `event_group_set_bits`. */
    method EventGroupSetBits(set_: Word) returns (result: Word)
      requires Distinct(waiting)
      modifies this
      ensures View() == SetBits(old(View()), set_) && result == bits
      ensures SetOutcome(old(View()), View(), set_)
      ensures old(Valid()) && IsBits(set_) ==> Valid()
    {
      ghost var g := View();
      bits := bits + set_;
      var toClear := Walk(bits);
      if toClear != {} {
        bits := bits - toClear;
      }
      result := bits;
      SetExactly(g, set_);
      if old(Valid()) && IsBits(set_) { SetWakesExactlyTheSatisfied(g, set_); }
    }

    method EventGroupClearBits(cleared: Word) returns (before: Word)
      modifies this`bits
      ensures View() == ClearBits(old(View()), cleared) && before == old(bits)
      ensures forall b :: b in bits <==> b in old(bits) && b !in cleared
      ensures old(Valid()) ==> Valid()
    {
      ghost var g := View();
      before := bits;
      bits := bits - cleared;
      if old(Valid()) { ClearSettles(g, cleared); }
    }

    /** `place_on_unordered_event_list`. */
    method PlaceOnUnorderedEventList(t: TaskId, value: Word)
      modifies this`waiting, this`values
      ensures View() == Group(bits, old(waiting) + [t], old(values)[t := value + IN_USE], ready)
    {
      values := values[t := value + IN_USE];
      waiting := waiting + [t];
    }

    method EventGroupWaitBits(t: TaskId, waitFor: Word, clearOnExit: bool, waitForAll: bool, ticks: nat)
      returns (out: Outcome)
      requires Valid() && t !in waiting && IsBits(waitFor)
      modifies this
      ensures Valid() && (View(), out) == Wait(old(View()), t, Condition(waitFor, clearOnExit, waitForAll), ticks)
      ensures out.Blocked? <==> !Satisfied(old(bits), waitFor, waitForAll) && ticks > 0
      ensures out.Done? ==>
        && out.bits == old(bits) && waiting == old(waiting) && values == old(values) && ready == old(ready)
        && bits == if Satisfied(old(bits), waitFor, waitForAll) && clearOnExit then old(bits) - waitFor else old(bits)
      ensures out.Blocked? ==>
        && bits == old(bits) && waiting == old(waiting) + [t] && ready == old(ready)
        && values == old(values)[t := waitFor + (if clearOnExit then {24} else {}) + (if waitForAll then {26} else {}) + {31}]
    {
      TestedBitByBit(bits, Condition(waitFor, clearOnExit, waitForAll));
      ghost var c := Condition(waitFor, clearOnExit, waitForAll);
      WaitSettles(View(), t, c, ticks);
      var current := bits;
      out := Done(current);
      if Met(current, Condition(waitFor, clearOnExit, waitForAll)) {
        if clearOnExit {
          bits := bits - waitFor;
        }
      } else if ticks != 0 {
        var control: Word := {};
        if clearOnExit { control := control + CLEAR_EVENTS_ON_EXIT; }
        if waitForAll { control := control + WAIT_FOR_ALL_BITS; }
        assert waitFor + control + IN_USE == Pack(c);
        PlaceOnUnorderedEventList(t, waitFor + control);
        out := Blocked;
      }
    }

    method EventGroupSync(t: TaskId, set_: Word, waitFor: Word, ticks: nat) returns (out: Outcome)
      requires Valid() && t !in waiting && IsBits(set_) && IsBits(waitFor)
      modifies this
      ensures Valid() && (View(), out) == Sync(old(View()), t, set_, waitFor, ticks)
      ensures exists h ::
        && SetOutcome(old(View()), h, set_) && ready == h.ready
        && if forall b :: b in waitFor ==> b in old(bits) || b in set_ then
             out == Done(old(bits) + set_) && View() == h.(bits := h.bits - waitFor)
           else if ticks == 0 then
             out == Done(bits) && View() == h
           else
             && out == Blocked
             && View() == h.(waiting := h.waiting + [t], values := h.values[t := waitFor + {24, 26, 31}])
    {
      SetExactly(View(), set_);
      ghost var h := SetBits(View(), set_);
      assert (forall b :: b in waitFor ==> b in bits || b in set_) <==> waitFor <= bits + set_;
      assert waitFor + CLEAR_EVENTS_ON_EXIT + WAIT_FOR_ALL_BITS + IN_USE == waitFor + {24, 26, 31};
      SyncSettles(View(), t, set_, waitFor, ticks);
      var original := bits;
      var result := EventGroupSetBits(set_);
      if waitFor <= original + set_ {
        out := Done(original + set_);
        bits := bits - waitFor;
      } else if ticks == 0 {
        out := Done(bits);
      } else {
        PlaceOnUnorderedEventList(t, waitFor + CLEAR_EVENTS_ON_EXIT + WAIT_FOR_ALL_BITS);
        out := Blocked;
      }
    }

    /** The tick, or an abort, takes a waiter off the list. */
    method TimeOut(t: TaskId)
      requires Valid() && t in waiting
      modifies this`waiting
      ensures Valid() && View() == Expire(old(View()), t)
      ensures t !in waiting && forall u :: u in waiting <==> u in old(waiting) && u != t
    {
      ExpireSettles(View(), t);
      waiting := Without(waiting, t);
    }

    /** `reset_event_item_value` and `finish_wait`. */
    method FinishWait(t: TaskId, c: Condition, order: Word) returns (result: Word)
      requires Valid() && t !in waiting
      modifies this`bits, this`values
      ensures Valid() && (View(), result) == Finish(old(View()), t, c, order)
      ensures forall given :: IsBits(given) && ValueOf(old(values), t) == Answer(given) ==>
        result == given && bits == old(bits)
      ensures ValueOf(old(values), t) * UNBLOCKED_DUE_TO_BIT_SET == {} ==>
        && result == old(bits)
        && bits == if Satisfied(old(bits), c.waitFor, c.all) && c.clear then old(bits) - c.waitFor else old(bits)
      ensures values == old(values)[t := order]
    {
      ghost var g := View();
      TestedBitByBit(bits, c);
      FinishSettles(g, t, c, order);
      var value := ValueOf(values, t);
      values := values[t := order];
      if value * UNBLOCKED_DUE_TO_BIT_SET != {} {
        forall given | IsBits(given) && value == Answer(given) ensures value - CONTROL == given {
          AnswerRoundTrips(given);
        }
        return value - CONTROL;
      }
      result := bits - CONTROL;
      if Met(bits, c) && c.clear {
        bits := bits - c.waitFor;
      }
    }

    /** `set_event_priority_value`: a priority change leaves a waiter's condition alone. */
    method SetEventPriorityValue(t: TaskId, order: Word)
      requires Valid()
      modifies this`values
      ensures Valid() && View() == Reorder(old(View()), t, order)
      ensures values == if 31 in ValueOf(old(values), t) then old(values) else old(values)[t := order]
      ensures forall u :: u in waiting ==> ValueOf(values, u) == ValueOf(old(values), u)
    {
      ReorderSettles(View(), t, order);
      OneBit(ValueOf(values, t), 31);
      if ValueOf(values, t) * IN_USE == {} {
        values := values[t := order];
      }
    }

    /** `event_group_delete`: every waiter is readied with an answer of no bits at all. */
    method EventGroupDelete()
      requires Valid()
      modifies this`waiting, this`values, this`ready
      ensures Valid() && waiting == [] && ready == old(ready) + old(waiting)
      ensures values == Answered(old(values), old(waiting), Answer({}))
      ensures forall t :: ValueOf(values, t) == if t in old(waiting) then {25, 31} else ValueOf(old(values), t)
    {
      ghost var all, done := waiting, 0;
      assert all[..0] == [];
      while waiting != []
        invariant 0 <= done <= |all| && waiting == all[done..]
        invariant ready == old(ready) + all[..done]
        invariant values == Answered(old(values), all[..done], Answer({}))
        decreases |waiting|
      {
        assert waiting == [] + ([all[done]] + all[done + 1..]);
        AtBoundary([], all[done], all[done + 1..]);
        assert all[..done + 1] == all[..done] + [all[done]];
        AnsweredGrows(old(values), all[..done], Answer({}), all[done]);
        assert UNBLOCKED_DUE_TO_BIT_SET + IN_USE == Answer({});
        RemoveFromUnorderedEventList(waiting[0], UNBLOCKED_DUE_TO_BIT_SET);
        done := done + 1;
      }
      assert all[..done] == all;
      forall t ensures ValueOf(values, t) == if t in all then {25, 31} else ValueOf(old(values), t) {
        AnsweredAt(old(values), all, Answer({}), t);
      }
    }
  }
}
