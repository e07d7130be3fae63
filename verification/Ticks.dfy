/** The tick and the two delayed lists of kernel.rs, on a clock of `width` values that wraps.

    `base` is the ghost half of the clock: the unbounded time is `base + tick`.  What the two lists
    hold is the sleepers of Sleepers.dfy: the delayed list those of this epoch, the overflow list
    those of the next. */
module Ticks {
  import opened Basics
  import opened DeadSleepers
  import opened Sleepers

  /** A state list item: its task, and the item value the list is sorted by. */
  datatype Item = Item(task: TaskId, value: nat)

  function InsertItem(list: seq<Item>, x: Item): seq<Item> {
    if list == [] || list[0].value > x.value then [x] + list
    else [list[0]] + InsertItem(list[1..], x)
  }

  function RemoveItem(list: seq<Item>, task: TaskId): seq<Item> {
    if list == [] then []
    else if list[0].task == task then RemoveItem(list[1..], task)
    else [list[0]] + RemoveItem(list[1..], task)
  }

  /** A list of this or the next epoch, in unbounded time. */
  function Lift(list: seq<Item>, base: nat): (queue: seq<Sleeper>)
    ensures |queue| == |list|
  {
    seq(|list|, i requires 0 <= i < |list| => Sleeper(list[i].task, base + list[i].value))
  }

  ghost predicate InOrder(list: seq<Item>) {
    forall i, j :: 0 <= i < j < |list| ==> list[i].value <= list[j].value
  }

  // ------------------------------------------- the lists as one queue --

  lemma LiftTail(list: seq<Item>, base: nat, k: nat)
    requires k <= |list|
    ensures Lift(list, base)[k..] == Lift(list[k..], base)
    ensures Lift(list, base)[..k] == Lift(list[..k], base)
  {
  }

  lemma LiftFirst(x: Item, list: seq<Item>, base: nat)
    ensures Lift([x] + list, base) == [Sleeper(x.task, base + x.value)] + Lift(list, base)
  {
  }

  lemma {:induction false} InsertLifts(list: seq<Item>, base: nat, x: Item)
    ensures Lift(InsertItem(list, x), base) == Insert(Lift(list, base), Sleeper(x.task, base + x.value))
  {
    if list == [] || list[0].value > x.value {
      LiftFirst(x, list, base);
    } else {
      InsertLifts(list[1..], base, x);
      LiftTail(list, base, 1);
      LiftFirst(list[0], InsertItem(list[1..], x), base);
    }
  }

  lemma {:induction false} RemoveLifts(list: seq<Item>, base: nat, task: TaskId)
    ensures Lift(RemoveItem(list, task), base) == Woken(Lift(list, base), task)
  {
    if list != [] {
      RemoveLifts(list[1..], base, task);
      LiftTail(list, base, 1);
      LiftFirst(list[0], RemoveItem(list[1..], task), base);
    }
  }

  /** A sleeper of this epoch goes in front of everybody of the next ... */
  lemma {:induction false} InsertThis(a: seq<Sleeper>, b: seq<Sleeper>, s: Sleeper)
    requires forall i :: 0 <= i < |b| ==> s.wake < b[i].wake
    ensures Insert(a + b, s) == Insert(a, s) + b
  {
    if a == [] {
      assert a + b == b;
    } else {
      assert (a + b)[1..] == a[1..] + b;
      InsertThis(a[1..], b, s);
    }
  }

  /** ... and one of the next behind everybody of this. */
  lemma {:induction false} InsertNext(a: seq<Sleeper>, b: seq<Sleeper>, s: Sleeper)
    requires forall i :: 0 <= i < |a| ==> a[i].wake <= s.wake
    ensures Insert(a + b, s) == a + Insert(b, s)
  {
    if a == [] {
      assert a + b == b;
    } else {
      assert (a + b)[1..] == a[1..] + b;
      InsertNext(a[1..], b, s);
    }
  }

  lemma {:induction false} WokenSplits(a: seq<Sleeper>, b: seq<Sleeper>, task: TaskId)
    ensures Woken(a + b, task) == Woken(a, task) + Woken(b, task)
  {
    if a == [] {
      assert a + b == b;
    } else {
      assert (a + b)[1..] == a[1..] + b;
      WokenSplits(a[1..], b, task);
    }
  }

  lemma {:induction false} InsertItemFacts(list: seq<Item>, x: Item)
    ensures forall y :: y in InsertItem(list, x) <==> y in list || y == x
    ensures InOrder(list) ==> InOrder(InsertItem(list, x))
    ensures InOrder(list) && list != [] ==> InsertItem(list, x)[0] == if list[0].value > x.value then x else list[0]
  {
    if list != [] && list[0].value <= x.value {
      var rest := InsertItem(list[1..], x);
      InsertItemFacts(list[1..], x);
      assert list == [list[0]] + list[1..];
      if InOrder(list) {
        forall i | 0 <= i < |rest| ensures list[0].value <= rest[i].value {
          assert rest[i] in rest;
          if rest[i] in list[1..] {
            var k :| 0 <= k < |list[1..]| && list[1..][k] == rest[i];
            assert list[1..][k] == list[k + 1];
          }
        }
      }
    }
  }

  lemma {:induction false} RemoveItemFacts(list: seq<Item>, task: TaskId)
    ensures forall y :: y in RemoveItem(list, task) <==> y in list && y.task != task
    ensures InOrder(list) ==> InOrder(RemoveItem(list, task))
  {
    if list != [] {
      var rest := RemoveItem(list[1..], task);
      RemoveItemFacts(list[1..], task);
      assert list == [list[0]] + list[1..];
      if InOrder(list) {
        forall i | 0 <= i < |rest| ensures list[0].value <= rest[i].value {
          assert rest[i] in rest && rest[i] in list[1..];
          var k :| 0 <= k < |list[1..]| && list[1..][k] == rest[i];
          assert list[1..][k] == list[k + 1];
        }
      }
    }
  }

  /** The two lists, in unbounded time. */
  function Both(delayed: seq<Item>, overflow: seq<Item>, base: nat, width: nat): seq<Sleeper> {
    Lift(delayed, base) + Lift(overflow, base + width)
  }

  /** The first k of the list are due now and their slots have tasks, and the next one is not due, or dead. */
  ghost predicate Drained(list: seq<Item>, k: nat, now: nat, vacant: set<TaskId>) {
    && k <= |list|
    && (forall i :: 0 <= i < k ==> list[i].value <= now && list[i].task !in vacant)
    && (k < |list| ==> list[k].value > now || list[k].task in vacant)
  }

  /** The walk over the list ended at a dead item that is due. */
  ghost predicate Stopped(list: seq<Item>, k: nat, now: nat) { k < |list| && list[k].value <= now }

  lemma StoppedByTheDead(list: seq<Item>, k: nat, now: nat, vacant: set<TaskId>)
    requires InOrder(list) && Drained(list, k, now, vacant)
    ensures Stopped(list, k, now) <==> exists x :: x in list && x.value <= now && x.task in vacant
  {
    if x :| x in list && x.value <= now && x.task in vacant {
      var i :| 0 <= i < |list| && list[i] == x;
      assert k <= i;
    }
    if Stopped(list, k, now) { assert list[k] in list; }
  }

  /** Readying the front of the delayed list up to there is a tick with those slots vacant. */
  lemma DrainIsTickPast(
    c: Clock, list: seq<Item>, overflow: seq<Item>, base: nat, width: nat, now: nat, k: nat, vacant: set<TaskId>)
    requires Drained(list, k, now, vacant) && now < width
    requires c.now + 1 == base + now && c.queue == Both(list, overflow, base, width)
    ensures TickPast(c, vacant) ==
      Clock(base + now, Both(list[k..], overflow, base, width), c.ready + Tasks(Lift(list[..k], base)))
  {
    ReachIsPrefix(c.queue, k, vacant, base + now);
    LiftTail(list, base, k);
    assert c.queue[k..] == Lift(list, base)[k..] + Lift(overflow, base + width);
    assert c.queue[..k] == Lift(list, base)[..k];
  }

  /** Readying what is due of the delayed list, and no more, is letting one tick pass. */
  lemma DrainIsAdvance(
    c: Clock, list: seq<Item>, overflow: seq<Item>, base: nat, width: nat, now: nat, k: nat, vacant: set<TaskId>)
    requires Drained(list, k, now, vacant) && !Stopped(list, k, now) && now < width
    requires c.now + 1 == base + now && c.queue == Both(list, overflow, base, width)
    ensures Advance(c, 1) ==
      Clock(base + now, Both(list[k..], overflow, base, width), c.ready + Tasks(Lift(list[..k], base)))
  {
    DueIsPrefix(c.queue, k, base + now);
    LiftTail(list, base, k);
    assert c.queue[k..] == Lift(list, base)[k..] + Lift(overflow, base + width);
    assert c.queue[..k] == Lift(list, base)[..k];
  }

  lemma NobodyWoken(c: Clock, list: seq<Item>, overflow: seq<Item>, base: nat, width: nat, nextUnblock: nat, now: nat)
    requires now < nextUnblock && now < width && forall x :: x in list ==> nextUnblock <= x.value
    requires c.now + 1 == base + now && c.queue == Both(list, overflow, base, width)
    ensures Advance(c, 1) == c.(now := c.now + 1)
  {
    forall i | 0 <= i < |c.queue| ensures c.queue[i].wake > c.now + 1 {
      if i < |list| { assert list[i] in list; }
    }
    NobodyDue(c, 1);
  }

  /** A period after a wake, on a tick of `width` values. */
  function NextWake(previous: nat, period: nat, width: nat): nat
    requires previous < width && period < width
    ensures NextWake(previous, period, width) < width
  {
    if previous + period >= width then previous + period - width else previous + period
  }

  function WakeAfter(start: nat, period: nat, width: nat, n: nat): nat
    requires start < width && period < width
    ensures WakeAfter(start, period, width, n) < width
  {
    if n == 0 then start else NextWake(WakeAfter(start, period, width, n - 1), period, width)
  }

  /** A periodic delay never drifts: after n calls the reference is the start and n periods, whatever
      the task did in between. */
  lemma {:induction false} PeriodsAddUp(start: nat, period: nat, width: nat, n: nat)
    requires start < width && period < width
    ensures WakeAfter(start, period, width, n) == (start + n * period) % width
  {
    if n > 0 {
      PeriodsAddUp(start, period, width, n - 1);
      var before := start + (n - 1) * period;
      OneMoreTime(n, period);
      WrapOnce(before, period, width);
    }
  }

  /** A call that comes k whole turns of the tick later than it looks should never delay, and does exactly
      if the call looks early enough. */
  lemma LateCallErrs(latest: int, k: nat, period: nat, now: int, width: nat)
    requires period < width && latest <= now
    ensures (latest + period > now <==> latest - k * width + period > now) <==> !(k > 0 && latest + period > now)
  {
    if k > 0 { assert k * width >= width; }
  }

  lemma WrapOnce(a: nat, period: nat, width: nat)
    requires period < width
    ensures (a + period) % width == if a % width + period >= width then a % width + period - width else a % width + period
  {
    var q, r := a / width, a % width;
    assert a == q * width + r;
    if r + period >= width {
      Remainder(q + 1, r + period - width, width);
      assert a + period == (q + 1) * width + (r + period - width);
    } else {
      Remainder(q, r + period, width);
    }
  }

  const OVERFLOWS_WRAP: nat := 0x1_0000_0000

  /** When an epoch starts, and what the overflow count says in it. */
  ghost function EpochStart(epoch: nat, width: nat): nat {
    if epoch == 0 then 0 else EpochStart(epoch - 1, width) + width
  }

  ghost function CountOf(epoch: nat): nat {
    if epoch == 0 then 0 else
      var last := CountOf(epoch - 1);
      if last + 1 == OVERFLOWS_WRAP then 0 else last + 1
  }

  /** The tick and the overflow count are the unbounded time, cut to their widths. */
  lemma {:induction false} EpochArithmetic(epoch: nat, width: nat)
    requires 0 < width
    ensures EpochStart(epoch, width) == epoch * width
    ensures CountOf(epoch) == epoch % OVERFLOWS_WRAP
  {
    if epoch > 0 {
      EpochArithmetic(epoch - 1, width);
      OneMoreTime(epoch, width);
      WrapOnce(epoch - 1, 1, OVERFLOWS_WRAP);
    }
  }

  /** Every delay is one the tick can count. */
  predicate Finite(events: seq<Event>, width: nat) {
    forall i :: 0 <= i < |events| && events[i].Sleep? ==> 0 < events[i].n < width
  }

  /** The two lists together are in the order their sleepers wake. */
  lemma ListsAreSorted(delayed: seq<Item>, overflow: seq<Item>, base: nat, width: nat)
    requires InOrder(delayed) && InOrder(overflow) && forall x :: x in delayed ==> x.value < width
    ensures Sorted(Both(delayed, overflow, base, width))
  {
    var all := Both(delayed, overflow, base, width);
    forall i, j | 0 <= i < j < |all| ensures all[i].wake <= all[j].wake {
      if i < |delayed| { assert delayed[i] in delayed; }
    }
  }

  lemma FiledThis(delayed: seq<Item>, overflow: seq<Item>, base: nat, width: nat, x: Item, wake: nat)
    requires x.value < width && wake == base + x.value
    ensures Both(InsertItem(delayed, x), overflow, base, width)
         == Insert(Both(delayed, overflow, base, width), Sleeper(x.task, wake))
  {
    InsertLifts(delayed, base, x);
    InsertThis(Lift(delayed, base), Lift(overflow, base + width), Sleeper(x.task, wake));
  }

  lemma FiledNext(delayed: seq<Item>, overflow: seq<Item>, base: nat, width: nat, x: Item, wake: nat)
    requires (forall y :: y in delayed ==> y.value < width) && wake == base + width + x.value
    ensures Both(delayed, InsertItem(overflow, x), base, width)
         == Insert(Both(delayed, overflow, base, width), Sleeper(x.task, wake))
  {
    InsertLifts(overflow, base + width, x);
    var early := Lift(delayed, base);
    forall i | 0 <= i < |early| ensures early[i].wake <= wake {
      assert delayed[i] in delayed;
    }
    InsertNext(early, Lift(overflow, base + width), Sleeper(x.task, wake));
  }

  /** What the items of an ordered list are, they are without those of a task. */
  lemma RemovedStays(list: seq<Item>, task: TaskId, tick: nat, nextUnblock: nat, width: nat)
    requires InOrder(list) && forall x :: x in list ==> x.value < width
    ensures InOrder(RemoveItem(list, task)) && forall x :: x in RemoveItem(list, task) ==> x.value < width
    ensures (forall x :: x in list ==> tick < x.value && nextUnblock <= x.value)
      ==> forall x :: x in RemoveItem(list, task) ==> tick < x.value && nextUnblock <= x.value
  {
    RemoveItemFacts(list, task);
  }

  lemma RemovedFromBoth(delayed: seq<Item>, overflow: seq<Item>, base: nat, width: nat, task: TaskId)
    ensures Both(RemoveItem(delayed, task), RemoveItem(overflow, task), base, width)
         == Woken(Both(delayed, overflow, base, width), task)
  {
    RemoveLifts(delayed, base, task);
    RemoveLifts(overflow, base + width, task);
    WokenSplits(Lift(delayed, base), Lift(overflow, base + width), task);
  }

  /** Short of the next unblock time there is nobody to wake. */
  lemma NobodyBefore(c: Clock, delayed: seq<Item>, overflow: seq<Item>, base: nat, width: nat,
      tick: nat, nextUnblock: nat, n: nat)
    requires c.now == base + tick && c.queue == Both(delayed, overflow, base, width)
    requires forall x :: x in delayed ==> tick < x.value && nextUnblock <= x.value
    requires n == 0 || tick + n < nextUnblock
    requires tick < width && nextUnblock < width
    ensures Ticked(c, n) == c.(now := c.now + n)
  {
    forall i | 0 <= i < |c.queue| ensures c.queue[i].wake > c.now + n {
      if i < |delayed| { assert delayed[i] in delayed; }
    }
    TickedIsAdvance(c, n);
    NobodyDue(c, n);
  }

  /** What is left of a delayed list when its due front is gone. */
  lemma RestOfList(list: seq<Item>, k: nat, width: nat, now: nat)
    requires InOrder(list) && (forall x :: x in list ==> x.value < width) && k <= |list|
    requires k < |list| ==> now < list[k].value
    ensures InOrder(list[k..])
    ensures k < |list| ==> list[k..][0] == list[k]
    ensures forall x :: x in list[k..] ==> now < x.value < width && list[k].value <= x.value
    ensures k < |list| ==> list[k].value < width
  {
    forall x | x in list[k..] ensures x in list && now < x.value && list[k].value <= x.value {
      var i :| 0 <= i < |list[k..]| && list[k..][i] == x;
      assert list[k + i] == x;
    }
    assert k < |list| ==> list[k] in list;
  }

  function OfOthers(list: seq<Item>, task: TaskId): set<Item> { set x | x in list && x.task != task }

  lemma NoneOfIts(list: seq<Item>, task: TaskId)
    ensures forall x :: x in Among(list, OfOthers(list, task)) ==> x.task != task
  {
    AmongFacts(list, OfOthers(list, task));
  }

  lemma {:induction false} RemovedExactly(list: seq<Item>, task: TaskId)
    ensures RemoveItem(list, task) == Among(list, OfOthers(list, task))
  {
    if list != [] {
      var rest := list[1..];
      assert list == [list[0]] + rest;
      RemovedExactly(rest, task);
      AmongAlike(rest, OfOthers(list, task), OfOthers(rest, task));
    }
  }

  lemma SuffixInOrder(list: seq<Item>, k: nat)
    requires InOrder(list) && k <= |list|
    ensures InOrder(list[k..]) && forall x :: x in list[k..] ==> x in list
  {
  }

  lemma OneMoreTask(list: seq<Item>, base: nat, k: nat)
    requires k < |list|
    ensures Tasks(Lift(list[..k + 1], base)) == Tasks(Lift(list[..k], base)) + [list[k].task]
    ensures list[k..][1..] == list[k + 1..]
  {
    var one := [Sleeper(list[k].task, base + list[k].value)];
    assert Lift(list[..k + 1], base) == Lift(list[..k], base) + one;
    TasksSplit(Lift(list[..k], base), one);
    assert Tasks(one) == [list[k].task] + Tasks([]);
  }

  lemma FirstIsIn(list: seq<Item>)
    requires list != []
    ensures list[0] in list
  {
  }

  /** At the wrap the delayed list is empty: nothing of this epoch is left. */
  lemma NothingLeft(delayed: seq<Item>, last: nat)
    requires forall x :: x in delayed ==> last < x.value < last + 1
    ensures delayed == []
  {
    if delayed != [] { FirstIsIn(delayed); }
  }

  // -------------------------------------- ticks held back, ticks jumped over --

  /** What a history is made of: events, the scheduler suspended and resumed, and, while it is suspended,
      jumps of a port that slept. */
  datatype Action = Happens(event: Event) | Suspends | Resumes | Jumps(asked: nat)

  /** Resumes match suspensions, a jump comes while suspended, and delays are finite. */
  predicate WellFormed(actions: seq<Action>, width: nat, depth: nat)
    decreases |actions|
  {
    actions == [] ||
      match actions[0]
      case Happens(e) => (e.Sleep? ==> 0 < e.n < width) && WellFormed(actions[1..], width, depth)
      case Suspends => WellFormed(actions[1..], width, depth + 1)
      case Resumes => depth > 0 && WellFormed(actions[1..], width, depth - 1)
      case Jumps(_) => depth > 0 && WellFormed(actions[1..], width, depth)
  }

  function TickTimes(n: nat): seq<Event> {
    if n == 0 then [] else [Tick] + TickTimes(n - 1)
  }

  /** The same history without suspensions: a tick that came while suspended is where the last resume is, and
      a jump is the ticks it took (`jumped[i].0`; it leaves `jumped[i].1` for the resume). */
  function Plain(actions: seq<Action>, jumped: seq<(nat, nat)>, depth: nat, pended: nat): seq<Event>
    requires |jumped| == |actions|
    decreases |actions|
  {
    if actions == [] then [] else
      var rest, left := actions[1..], jumped[1..];
      match actions[0]
      case Happens(e) =>
        if e.Tick? && depth > 0 then Plain(rest, left, depth, pended + 1) else [e] + Plain(rest, left, depth, pended)
      case Suspends => Plain(rest, left, depth + 1, pended)
      case Resumes => if depth <= 1 then TickTimes(pended) + Plain(rest, left, 0, 0) else Plain(rest, left, depth - 1, pended)
      case Jumps(_) => TickTimes(jumped[0].0) + Plain(rest, left, depth, pended + jumped[0].1)
  }

  /** How many ticks are still held back at the end of it. */
  function StillHeld(actions: seq<Action>, jumped: seq<(nat, nat)>, depth: nat, pended: nat): nat
    requires |jumped| == |actions|
    decreases |actions|
  {
    if actions == [] then pended else
      var rest, left := actions[1..], jumped[1..];
      match actions[0]
      case Happens(e) => StillHeld(rest, left, depth, if e.Tick? && depth > 0 then pended + 1 else pended)
      case Suspends => StillHeld(rest, left, depth + 1, pended)
      case Resumes => if depth <= 1 then StillHeld(rest, left, 0, 0) else StillHeld(rest, left, depth - 1, pended)
      case Jumps(_) => StillHeld(rest, left, depth, pended + jumped[0].1)
  }

  /** How many ticks the history brought. */
  function TicksBrought(actions: seq<Action>, jumped: seq<(nat, nat)>): nat
    requires |jumped| == |actions|
    decreases |actions|
  {
    if actions == [] then 0 else
      TicksBrought(actions[1..], jumped[1..]) + match actions[0]
        case Happens(e) => if e.Tick? then 1 else 0
        case Jumps(_) => jumped[0].0 + jumped[0].1
        case _ => 0
  }

  function Asked(a: Action): nat { if a.Jumps? then a.asked else 0 }

  lemma {:induction false} TicksInTimes(n: nat, rest: seq<Event>)
    ensures TicksIn(TickTimes(n) + rest) == n + TicksIn(rest)
  {
    if n == 0 {
      assert TickTimes(0) + rest == rest;
    } else {
      assert (TickTimes(n) + rest)[1..] == TickTimes(n - 1) + rest;
      TicksInTimes(n - 1, rest);
    }
  }

  /** No tick is lost or made up by suspending or jumping. */
  lemma {:induction false} TicksBalance(actions: seq<Action>, jumped: seq<(nat, nat)>, depth: nat, pended: nat)
    requires |jumped| == |actions|
    ensures TicksIn(Plain(actions, jumped, depth, pended)) + StillHeld(actions, jumped, depth, pended)
      == pended + TicksBrought(actions, jumped)
    decreases |actions|
  {
    if actions != [] {
      var rest, left := actions[1..], jumped[1..];
      match actions[0] {
        case Happens(e) =>
          var held := if e.Tick? && depth > 0 then pended + 1 else pended;
          TicksBalance(rest, left, depth, held);
          assert ([e] + Plain(rest, left, depth, held))[1..] == Plain(rest, left, depth, held);
        case Suspends => TicksBalance(rest, left, depth + 1, pended);
        case Resumes =>
          if depth <= 1 {
            TicksBalance(rest, left, 0, 0);
            TicksInTimes(pended, Plain(rest, left, 0, 0));
          } else {
            TicksBalance(rest, left, depth - 1, pended);
          }
        case Jumps(_) =>
          TicksBalance(rest, left, depth, pended + jumped[0].1);
          TicksInTimes(jumped[0].0, Plain(rest, left, depth, pended + jumped[0].1));
      }
    }
  }

  lemma {:induction false} RunTimes(c: Clock, n: nat, rest: seq<Event>)
    ensures Run(c, TickTimes(n) + rest) == Run(Ticked(c, n), rest)
    decreases n
  {
    hide Advance;
    if n == 0 {
      assert TickTimes(0) + rest == rest;
    } else {
      assert (TickTimes(n) + rest)[1..] == TickTimes(n - 1) + rest;
      RunTimes(Advance(c, 1), n - 1, rest);
      TickedAdds(c, 1, n - 1);
      assert Ticked(c, 1) == Advance(Ticked(c, 0), 1);
    }
  }

  lemma RunNothing(c: Clock)
    ensures Run(c, []) == c
  {
  }

  lemma RunOne(c: Clock, e: Event, rest: seq<Event>)
    ensures Run(c, [e] + rest) == Run(Step(c, e), rest)
  {
    assert ([e] + rest)[1..] == rest;
  }

  class TickKernel {
    /** How many values the tick takes: `MAX_DELAY` + 1. */
    const width: nat
    var tick: nat
    var nextUnblock: nat
    /** The two delayed lists, and which of them is the delayed list now. */
    var listA: seq<Item>
    var listB: seq<Item>
    var swapped: bool
    var suspended: seq<TaskId>
    /** `xNumOfOverflows`, a 32-bit count. */
    var overflows: nat
    var pended: nat
    var suspendedDepth: nat
    /** What `add_task_to_ready_list` has been asked to ready, in order. */
    var ready: seq<TaskId>
    ghost var epochs: nat
    ghost var base: nat

    function Delayed(): seq<Item> reads this { if swapped then listB else listA }

    function Overflow(): seq<Item> reads this { if swapped then listA else listB }

    ghost function Clock(): Clock
      reads this
    {
      Sleepers.Clock(base + tick, Both(Delayed(), Overflow(), base, width), ready)
    }

    /** What holds even inside a tick. */
    ghost predicate Shape()
      reads this
    {
      && 2 <= width && tick < width && nextUnblock < width
      && InOrder(Delayed()) && InOrder(Overflow())
      && (forall x :: x in Delayed() ==> x.value < width)
      && (forall x :: x in Overflow() ==> x.value < width)
      && base == EpochStart(epochs, width) && overflows == CountOf(epochs)
    }

    /** Everything on the delayed list wakes later in this epoch, and no sooner than the next unblock
        time says. */
    ghost predicate Valid()
      reads this
    {
      && Shape()
      && forall x :: x in Delayed() ==> tick < x.value && nextUnblock <= x.value
    }

    constructor (width: nat, start: nat)
      requires 2 <= width && start < width
      ensures Valid() && Clock() == Sleepers.Clock(start, [], [])
      ensures this.width == width && suspendedDepth == 0 && pended == 0
    {
      this.width := width;
      tick, nextUnblock := start, width - 1;
      listA, listB, swapped, suspended, ready := [], [], false, [], [];
      overflows, pended, suspendedDepth := 0, 0, 0;
      epochs, base := 0, 0;
    }

    /** `reset_next_task_unblock_time`. */
    method ResetNextTaskUnblockTime()
      requires Shape()
      modifies this`nextUnblock
      ensures Shape() && Clock() == old(Clock())
      ensures forall x :: x in Delayed() ==> nextUnblock <= x.value
      ensures nextUnblock == if Delayed() == [] then width - 1 else Delayed()[0].value
    {
      if Delayed() == [] {
        nextUnblock := width - 1;
      } else {
        assert Delayed()[0] in Delayed();
        nextUnblock := Delayed()[0].value;
      }
    }

    /** `switch_delayed_lists`: the lists trade places, and with them the epochs. */
    method SwitchDelayedLists()
      requires Shape() && tick == 0 && Delayed() == []
      modifies this`swapped, this`overflows, this`nextUnblock, this`epochs, this`base
      ensures Shape() && base == old(base) + width
      ensures Delayed() == old(Overflow()) && Overflow() == []
      ensures forall x :: x in Delayed() ==> nextUnblock <= x.value
    {
      swapped := !swapped;
      overflows := if overflows + 1 == OVERFLOWS_WRAP then 0 else overflows + 1;
      epochs := epochs + 1;
      base := base + width;
      ResetNextTaskUnblockTime();
    }

    /** The head of the delayed list is due: it becomes ready. */
    method ReadyHead()
      requires Delayed() != []
      modifies this`listA, this`listB, this`ready
      ensures Delayed() == old(Delayed())[1..] && Overflow() == old(Overflow())
      ensures ready == old(ready) + [old(Delayed())[0].task]
    {
      ready := ready + [Delayed()[0].task];
      if swapped { listB := listB[1..]; } else { listA := listA[1..]; }
    }

    /** `wake_due_tasks`, its walk: readies from the head of the delayed list until one is not due, or is in a
        slot of the arena that no task lives in. */
    method DrainDue(now: nat, vacant: set<TaskId>) returns (stopped: bool, ghost k: nat)
      modifies this`listA, this`listB, this`ready
      ensures Overflow() == old(Overflow())
      ensures Drained(old(Delayed()), k, now, vacant) && Delayed() == old(Delayed())[k..]
      ensures stopped == Stopped(old(Delayed()), k, now)
      ensures ready == old(ready) + Tasks(Lift(old(Delayed())[..k], base))
    {
      ghost var list := Delayed();
      k := 0;
      assert list[..0] == [];
      while Delayed() != [] && Delayed()[0].value <= now
        invariant Overflow() == old(Overflow())
        invariant 0 <= k <= |list| && Delayed() == list[k..]
        invariant forall i :: 0 <= i < k ==> list[i].value <= now && list[i].task !in vacant
        invariant ready == old(ready) + Tasks(Lift(list[..k], base))
        decreases |Delayed()|
      {
        if Delayed()[0].task in vacant {
          return true, k;
        }
        OneMoreTask(list, base, k);
        ReadyHead();
        k := k + 1;
      }
      stopped := false;
    }

    /** `wake_due_tasks`: readies what is due, and notes when the next one is; a dead sleeper that is due stops
        it, and the next unblock time stays. */
    method WakeDueTasks(ghost c: Clock, vacant: set<TaskId>)
      requires Shape() && c.now + 1 == base + tick
      requires c.queue == Both(Delayed(), Overflow(), base, width) && c.ready == ready
      modifies this`listA, this`listB, this`nextUnblock, this`ready
      ensures Shape() && Clock() == TickPast(c, vacant)
      ensures var stopped := exists x :: x in old(Delayed()) && x.value <= tick && x.task in vacant;
        if stopped then Delayed() != [] && Delayed()[0].value <= tick && nextUnblock == old(nextUnblock)
        else Valid() && Clock() == Advance(c, 1) && nextUnblock == if Delayed() == [] then width - 1 else Delayed()[0].value
    {
      hide Both, InOrder, Lift, Advance, TickPast, EpochStart, CountOf, Tasks;
      ghost var list := Delayed();
      var stopped: bool;
      ghost var k: nat;
      stopped, k := DrainDue(tick, vacant);
      StoppedByTheDead(list, k, tick, vacant);
      DrainIsTickPast(c, list, Overflow(), base, width, tick, k, vacant);
      SuffixInOrder(list, k);
      if stopped {
        return;
      }
      RestOfList(list, k, width, tick);
      DrainIsAdvance(c, list, Overflow(), base, width, tick, k, vacant);
      if Delayed() == [] {
        nextUnblock := width - 1;
      } else {
        nextUnblock := Delayed()[0].value;
      }
    }

    /** `increment_tick`, its first half: the count moves on, and at the wrap the lists trade places. */
    method AdvanceToNext()
      requires Valid()
      modifies this`tick, this`swapped, this`overflows, this`nextUnblock, this`epochs, this`base
      ensures Shape() && Clock() == old(Clock()).(now := old(Clock()).now + 1)
      ensures forall x :: x in Delayed() ==> tick <= x.value && nextUnblock <= x.value
    {
      hide InOrder, EpochStart, CountOf;
      var next := if tick + 1 == width then 0 else tick + 1;
      tick := next;
      if next == 0 {
        NothingLeft(Delayed(), old(tick));
        SwitchDelayedLists();
        assert Both(old(Delayed()), old(Overflow()), old(base), width) == Both(Delayed(), Overflow(), base, width);
      }
    }

    /** `increment_tick`: a tick taken, or pended while the scheduler is suspended.  No task is freed in its sleep
        here; `WakeDueTasks` says what a tick does where one was. */
    method IncrementTick()
      requires Valid()
      modifies this
      ensures Valid()
      ensures suspendedDepth == old(suspendedDepth)
      ensures Clock() == if suspendedDepth == 0 then Advance(old(Clock()), 1) else old(Clock())
      ensures pended == if suspendedDepth == 0 then old(pended) else old(pended) + 1
    {
      hide Advance, Both, InOrder, EpochStart, CountOf;
      if suspendedDepth != 0 {
        pended := pended + 1;
        return;
      }
      AdvanceToNext();
      if tick >= nextUnblock {
        WakeDueTasks(old(Clock()), {});
      } else {
        NobodyWoken(old(Clock()), Delayed(), Overflow(), base, width, nextUnblock, tick);
      }
    }

    // ------------------------------------------------------------- delays --

    /** A sleeper of this epoch: on the delayed list, and perhaps the next to wake. */
    method FileThisEpoch(item: Item, ghost wake: nat)
      requires Valid() && tick < item.value < width && wake == base + item.value
      modifies this`listA, this`listB, this`nextUnblock
      ensures Valid()
      ensures Clock() == old(Clock()).(queue := Insert(old(Clock()).queue, Sleeper(item.task, wake)))
      ensures nextUnblock == if item.value < old(nextUnblock) then item.value else old(nextUnblock)
    {
      hide Both, InOrder, InsertItem, EpochStart, CountOf, Insert;
      InsertItemFacts(Delayed(), item);
      FiledThis(Delayed(), Overflow(), base, width, item, wake);
      SetDelayed(InsertItem(Delayed(), item));
      if item.value < nextUnblock {
        nextUnblock := item.value;
      }
    }

    /** A sleeper of the next epoch: on the overflow list, which no tick of this one looks at. */
    method FileNextEpoch(item: Item, ghost wake: nat)
      requires Valid() && item.value < width && wake == base + width + item.value
      modifies this`listA, this`listB
      ensures Valid()
      ensures Clock() == old(Clock()).(queue := Insert(old(Clock()).queue, Sleeper(item.task, wake)))
    {
      hide Both, InOrder, InsertItem, EpochStart, CountOf, Insert;
      InsertItemFacts(Overflow(), item);
      FiledNext(Delayed(), Overflow(), base, width, item, wake);
      SetOverflow(InsertItem(Overflow(), item));
    }

    /** A finite delay of n ticks is filed under the wrapped sum, on the overflow list if it wrapped. */
    method FileDelay(task: TaskId, ticks: nat)
      requires Valid() && 0 < ticks < width
      modifies this`listA, this`listB, this`nextUnblock
      ensures Valid() && Clock() == Delay(old(Clock()), task, ticks)
    {
      hide Both, InOrder, EpochStart, CountOf, Insert;
      ghost var wake := Clock().now + ticks;
      var wakeAt := if tick + ticks >= width then tick + ticks - width else tick + ticks;
      if wakeAt < tick {
        FileNextEpoch(Item(task, wakeAt), wake);
      } else {
        FileThisEpoch(Item(task, wakeAt), wake);
      }
    }

    /** `add_current_task_to_delayed_list`, of a task on neither list: the longest delay is for ever,
        where the caller allows that. */
    method AddToDelayedList(task: TaskId, ticks: nat, canBlockIndefinitely: bool)
      requires Valid() && 0 < ticks < width
      modifies this`listA, this`listB, this`nextUnblock, this`suspended
      ensures Valid()
      ensures var forever := ticks == width - 1 && canBlockIndefinitely;
        && Clock() == (if forever then old(Clock()) else Delay(old(Clock()), task, ticks))
        && suspended == (if forever then old(suspended) + [task] else old(suspended))
    {
      if ticks == width - 1 && canBlockIndefinitely {
        suspended := suspended + [task];
      } else {
        FileDelay(task, ticks);
      }
    }

    /** The last time that the tick had this value, in time that never wraps. */
    ghost function Latest(value: nat): int
      reads this
    {
      if value <= tick then base + value else base + value - width
    }

    /** `delay_until`: it delays exactly if a period after the last time the tick had the value of the
        previous wake is still to come, for exactly as long as it is, and either way moves the reference on
        by one period. */
    method DelayUntil(task: TaskId, previousWake: nat, period: nat) returns (shouldDelay: bool, wakeAt: nat)
      requires Valid() && period < width && previousWake < width
      modifies this`listA, this`listB, this`nextUnblock, this`suspended
      ensures Valid() && suspended == old(suspended)
      ensures shouldDelay <==> Latest(previousWake) + period > old(Clock()).now
      ensures shouldDelay ==> Clock() == Delay(old(Clock()), task, Latest(previousWake) + period - old(Clock()).now)
      ensures !shouldDelay ==> Clock() == old(Clock())
      ensures wakeAt == NextWake(previousWake, period, width)
    {
      hide Both, InOrder, EpochStart, CountOf, Insert;
      wakeAt := NextWake(previousWake, period, width);
      shouldDelay := false;
      if tick < previousWake {
        if wakeAt < previousWake && wakeAt > tick {
          shouldDelay := true;
        }
      } else if wakeAt < previousWake || wakeAt > tick {
        shouldDelay := true;
      }
      if shouldDelay {
        var ticks := if wakeAt >= tick then wakeAt - tick else wakeAt + width - tick;
        AddToDelayedList(task, ticks, false);
      }
    }

    method SetDelayed(list: seq<Item>)
      modifies this`listA, this`listB
      ensures Delayed() == list && Overflow() == old(Overflow())
    {
      if swapped { listB := list; } else { listA := list; }
    }

    method SetOverflow(list: seq<Item>)
      modifies this`listA, this`listB
      ensures Overflow() == list && Delayed() == old(Delayed())
    {
      if swapped { listA := list; } else { listB := list; }
    }

    method Unfile(task: TaskId)
      requires Valid()
      modifies this`listA, this`listB
      ensures Valid() && Clock() == Cancel(old(Clock()), task)
      ensures Delayed() == Among(old(Delayed()), OfOthers(old(Delayed()), task))
      ensures Overflow() == Among(old(Overflow()), OfOthers(old(Overflow()), task))
    {
      hide Both, InOrder, RemoveItem, EpochStart, CountOf, Woken;
      RemovedExactly(Delayed(), task);
      RemovedExactly(Overflow(), task);
      RemovedStays(Delayed(), task, tick, nextUnblock, width);
      RemovedStays(Overflow(), task, 0, 0, width);
      RemovedFromBoth(Delayed(), Overflow(), base, width, task);
      SetDelayed(RemoveItem(Delayed(), task));
      SetOverflow(RemoveItem(Overflow(), task));
    }

    /** Something other than time takes the task off its delayed list: `abort_delay`, `suspend`, a
        notification, an event.  Not all of them reset the next unblock time; it may be early. */
    method RemoveFromDelayedList(task: TaskId, reset: bool)
      requires Valid()
      modifies this`listA, this`listB, this`nextUnblock
      ensures Valid() && Clock() == Cancel(old(Clock()), task)
      ensures Delayed() == Among(old(Delayed()), OfOthers(old(Delayed()), task))
      ensures Overflow() == Among(old(Overflow()), OfOthers(old(Overflow()), task))
      ensures forall x :: x in Delayed() || x in Overflow() ==> x.task != task
      ensures nextUnblock ==
        if !reset then old(nextUnblock) else if Delayed() == [] then width - 1 else Delayed()[0].value
    {
      hide Among, OfOthers, Both, InOrder, EpochStart, CountOf, Woken;
      NoneOfIts(Delayed(), task);
      NoneOfIts(Overflow(), task);
      Unfile(task);
      if reset {
        ResetNextTaskUnblockTime();
      }
    }

    // ------------------------------------------------ ticks not taken yet --

    method SuspendAll()
      modifies this`suspendedDepth
      ensures suspendedDepth == old(suspendedDepth) + 1
    {
      suspendedDepth := suspendedDepth + 1;
    }

    function Room(): (room: nat)
      reads this
    {
      if nextUnblock >= tick then nextUnblock - tick else 0
    }

    /** `step_tick`: never past the next unblock time, and landing on it leaves the last tick pended
        for the ordinary path to take. */
    method StepTick(ticksToJump: nat) returns (ghost jumped: nat)
      requires Valid()
      modifies this`tick, this`pended
      ensures Valid() && Clock() == old(Clock()).(now := old(Clock()).now + jumped)
      ensures jumped == 0 || tick < nextUnblock
      ensures var room := if nextUnblock >= old(tick) then nextUnblock - old(tick) else 0;
        && tick == old(tick) + jumped
        && jumped + (pended - old(pended)) == (if ticksToJump <= room then ticksToJump else room)
        && pended == old(pended) + if 0 < room <= ticksToJump then 1 else 0
    {
      var jump := if ticksToJump <= Room() then ticksToJump else Room();
      if tick + jump == nextUnblock && jump > 0 {
        pended := pended + 1;
        jump := jump - 1;
      }
      assert forall x :: x in Delayed() ==> nextUnblock <= x.value;
      tick := tick + jump;
      jumped := jump;
    }

    /** `unwind_pended_ticks`: the ticks that were held back, now. */
    method UnwindPendedTicks()
      requires Valid() && suspendedDepth == 0
      modifies this
      ensures Valid() && suspendedDepth == 0 && pended == 0
      ensures Clock() == Ticked(old(Clock()), old(pended))
    {
      hide Advance, Both, InOrder, EpochStart, CountOf;
      var left := pended;
      ghost var c, taken := Clock(), 0;
      while left > 0
        invariant Valid() && suspendedDepth == 0 && taken + left == old(pended)
        invariant Clock() == Ticked(c, taken)
      {
        IncrementTick();
        left := left - 1;
        taken := taken + 1;
      }
      pended := 0;
    }

    /** `resume_all`, its clock half. */
    method ResumeAll()
      requires Valid() && 0 < suspendedDepth
      modifies this
      ensures Valid() && suspendedDepth == old(suspendedDepth) - 1
      ensures suspendedDepth == 0 ==> pended == 0 && Clock() == Ticked(old(Clock()), old(pended))
      ensures suspendedDepth > 0 ==> pended == old(pended) && Clock() == old(Clock())
    {
      hide Advance, Both, InOrder, EpochStart, CountOf;
      suspendedDepth := suspendedDepth - 1;
      if suspendedDepth == 0 {
        UnwindPendedTicks();
      }
    }

    /** `idle_suppress_ticks`: the port sleeps through `slept` ticks and reports them in one jump.
        Nobody can tell: the clock, both lists and what became ready are those of as many ordinary
        ticks, or of those up to the next unblock time if the port overslept. */
    method SuppressTicks(slept: nat)
      requires Valid() && suspendedDepth == 0 && pended == 0
      modifies this
      ensures Valid() && suspendedDepth == 0 && pended == 0
      ensures var room := if old(nextUnblock) >= old(tick) then old(nextUnblock) - old(tick) else 0;
        Clock() == Ticked(old(Clock()), if slept <= room then slept else room)
    {
      hide Advance, Both, InOrder, EpochStart, CountOf;
      ghost var c, delayed, was := Clock(), Delayed(), tick;
      SuspendAll();
      ghost var jumped := StepTick(slept);
      NobodyBefore(c, delayed, Overflow(), base, width, was, nextUnblock, jumped);
      TickedAdds(c, jumped, pended);
      ResumeAll();
    }

    /** Ticks that come while the scheduler is suspended are taken late, and nobody can tell. */
    method HoldTicks(n: nat)
      requires Valid() && suspendedDepth == 0 && pended == 0
      modifies this
      ensures Valid() && suspendedDepth == 0 && pended == 0
      ensures Clock() == Ticked(old(Clock()), n)
    {
      SuspendAll();
      var i := 0;
      while i < n
        invariant 0 <= i <= n && Valid() && suspendedDepth == 1 && pended == i
        invariant Clock() == old(Clock())
      {
        IncrementTick();
        i := i + 1;
      }
      ResumeAll();
    }

    /** Woken before its time, a task is readied no more by any history of ticks, delays and wake-ups of others,
        across any number of wraps. */
    method WakeEarly(task: TaskId, events: seq<Event>)
      requires Valid() && suspendedDepth == 0 && Finite(events, width)
      requires forall i :: 0 <= i < |events| && events[i].Sleep? ==> events[i].task != task
      modifies this
      ensures Valid() && suspendedDepth == 0
      ensures old(ready) <= ready && task !in ready[|old(ready)|..]
    {
      hide Advance, Delay, Cancel, Both, InOrder, EpochStart, CountOf, Run;
      WokenIsNotReadiedAgain(Clock(), events, task);
      RemoveFromDelayedList(task, true);
      Execute(events);
    }

    /** A whole history: ticks, finite delays and other wake-ups in any order and number, across any
        number of wraps, do to the clock what they do in time that never wraps. */
    method Execute(events: seq<Event>)
      requires Valid() && suspendedDepth == 0 && Finite(events, width)
      modifies this
      ensures Valid() && suspendedDepth == 0
      ensures Clock() == Run(old(Clock()), events)
    {
      hide Advance, Delay, Cancel, Both, InOrder, EpochStart, CountOf;
      ghost var c := Clock();
      var i := 0;
      assert events[0..] == events;
      while i < |events|
        invariant 0 <= i <= |events| && Valid() && suspendedDepth == 0
        invariant Run(Clock(), events[i..]) == Run(c, events)
      {
        assert events[i..][1..] == events[i + 1..];
        match events[i] {
          case Tick => IncrementTick();
          case Sleep(task, n) => AddToDelayedList(task, n, false);
          case Wake(task) => RemoveFromDelayedList(task, true);
        }
        i := i + 1;
      }
    }

    /** One event, whatever the suspension: a tick may be held back. */
    method Act(e: Event)
      requires Valid() && (e.Sleep? ==> 0 < e.n < width)
      modifies this
      ensures Valid() && suspendedDepth == old(suspendedDepth)
      ensures var holds := e.Tick? && suspendedDepth > 0;
        Clock() == (if holds then old(Clock()) else Step(old(Clock()), e)) && pended == old(pended) + if holds then 1 else 0
    {
      hide Advance, Delay, Cancel, Both, InOrder, EpochStart, CountOf;
      match e {
        case Tick => IncrementTick();
        case Sleep(task, n) => AddToDelayedList(task, n, false);
        case Wake(task) => RemoveFromDelayedList(task, true);
      }
    }

    /** Suspensions anywhere in a history, with ticks, delays, wake-ups and jumps while they last, do to the
        clock what the plain history does that has the held ticks where the resumes are. */
    method ExecuteAll(actions: seq<Action>) returns (ghost jumped: seq<(nat, nat)>)
      requires Valid() && WellFormed(actions, width, suspendedDepth) && (suspendedDepth == 0 ==> pended == 0)
      modifies this
      ensures Valid() && (suspendedDepth == 0 ==> pended == 0) && |jumped| == |actions|
      ensures forall i :: 0 <= i < |actions| ==> jumped[i].1 <= 1 && jumped[i].0 + jumped[i].1 <= Asked(actions[i])
      ensures Clock() == Run(old(Clock()), Plain(actions, jumped, old(suspendedDepth), old(pended)))
      ensures pended == StillHeld(actions, jumped, old(suspendedDepth), old(pended))
      decreases |actions|
    {
      hide Advance, Delay, Cancel, Both, InOrder, EpochStart, CountOf, Run, Step, Ticked;
      ghost var c, depth, held := Clock(), suspendedDepth, pended;
      if actions == [] {
        assert Run(c, []) == c by { RunNothing(c); }
        return [];
      }
      ghost var j: (nat, nat) := (0, 0);
      match actions[0] {
        case Happens(e) => Act(e);
        case Suspends => SuspendAll();
        case Resumes => ResumeAll();
        case Jumps(asked) => j := JumpOver(asked);
      }
      ghost var d, depth', held' := Clock(), suspendedDepth, pended;
      ghost var left := ExecuteAll(actions[1..]);
      jumped := [j] + left;
      assert jumped[1..] == left;
      ghost var rest := Plain(actions[1..], left, depth', held');
      match actions[0] {
        case Happens(e) => RunOne(c, e, rest);
        case Suspends =>
        case Resumes => RunTimes(c, held, rest);
        case Jumps(_) => RunTimes(c, j.0, rest);
      }
    }

    /** `step_tick`, in unbounded time. */
    method JumpOver(asked: nat) returns (ghost j: (nat, nat))
      requires Valid()
      modifies this`tick, this`pended
      ensures Valid() && j.1 <= 1 && j.0 + j.1 <= asked
      ensures Clock() == Ticked(old(Clock()), j.0) && pended == old(pended) + j.1
    {
      hide Advance, Both, InOrder, EpochStart, CountOf;
      ghost var c, delayed, was := Clock(), Delayed(), tick;
      ghost var jumped := StepTick(asked);
      NobodyBefore(c, delayed, Overflow(), base, width, was, nextUnblock, jumped);
      j := (jumped, pended - old(pended));
    }

    /** The same ticks taken one by one. */
    method TakeTicks(n: nat)
      requires Valid() && suspendedDepth == 0 && pended == 0
      modifies this
      ensures Valid() && suspendedDepth == 0 && pended == 0
      ensures Clock() == Ticked(old(Clock()), n)
    {
      hide Advance, Both, InOrder, EpochStart, CountOf;
      ghost var c := Clock();
      var i := 0;
      while i < n
        invariant 0 <= i <= n && Valid() && suspendedDepth == 0 && pended == 0
        invariant Clock() == Ticked(c, i)
      {
        IncrementTick();
        i := i + 1;
      }
    }
  }
}
