/** Creation, deletion and deferred freeing of tasks in kernel.rs, over the two-core scheduler: a task that
    a core still holds when it is deleted is marked with a number, and the idle task frees the marked
    ones, the oldest first, once no core holds them.  Nothing but the reaping looks at the mark: until
    then a deleted task may go to sleep, be suspended, be notified, become ready and run like any other. */
module Reaping {
  import opened Basics
  import opened TwoCores

  /** Marks have 32 bits, the count of marked tasks has 16. */
  const WRAP: nat := 0x1_0000_0000
  const COUNT: nat := 0x1_0000

  /** A slot of the task arena: whether a task lives in it, how often it was freed, and `reap_seq`. */
  datatype Slot = Slot(live: bool, generation: nat, mark: nat)

  datatype TaskHandle = TaskHandle(slot: TaskId, generation: nat)

  /** One of the notifications of the task in a slot. */
  datatype Flag = Flag(slot: TaskId, index: nat)

  /** `holds` are the generations of what the cores hold; `asleep` the slots whose item is on a delayed or
      suspended list, `pending` those whose event item is on the pending-ready list; `awaits` the notifications
      whose state is Waiting; `deferred`, `reaped` and `freed` are the history: the deletions put off, those of
      them the idle task caught up with, and every task freed. */
  datatype Kernel = Kernel(
    system: System, slots: seq<Slot>, holds: seq<nat>, asleep: set<TaskId>, pending: set<TaskId>, awaits: set<Flag>,
    next: nat, waiting: nat, deferred: seq<TaskHandle>, reaped: seq<TaskHandle>, freed: seq<TaskHandle>)

  datatype Step =
    | Create(slot: TaskId, level: nat, me: nat)  // in the free slot that the arena gives
    | Delete(handle: TaskHandle, me: nat)
    | Suspend(handle: TaskHandle, me: nat)
    | Reap
    | Await(core: nat, index: nat)   // what a core runs begins to wait for a notification
    | Answer(core: nat, index: nat)  // and calls in again after its wait
    | Notify(handle: TaskHandle, index: nat, level: nat, me: nat, held: bool)
    | Schedule(event: Event)

  // ------------------------------------------------- what the code does --

  /** `reap_next.wrapping_add(1).max(1)`. */
  function NextMark(next: nat): nat {
    if next + 1 == WRAP then 1 else next + 1
  }

  predicate Shape(k: Kernel) { |k.holds| == |k.system.cores| == CORES }

  function CurrentOf(k: Kernel, core: nat): TaskHandle
    requires Shape(k) && core < CORES
  {
    TaskHandle(k.system.cores[core].task, k.holds[core])
  }

  /** `held_core`. */
  function HolderOf(k: Kernel, h: TaskHandle): (core: Option<nat>)
    requires Shape(k)
    ensures core.Some? ==> core.value < CORES && CurrentOf(k, core.value) == h
    ensures core.None? ==> CurrentOf(k, 0) != h && CurrentOf(k, 1) != h
  {
    if CurrentOf(k, 0) == h then Some(0) else if CurrentOf(k, 1) == h then Some(1) else None
  }

  predicate Resolves(k: Kernel, h: TaskHandle) {
    h.slot < |k.slots| && k.slots[h.slot].live && k.slots[h.slot].generation == h.generation
  }

  function HandleAt(k: Kernel, slot: TaskId): TaskHandle
    requires slot < |k.slots|
  {
    TaskHandle(slot, k.slots[slot].generation)
  }

  /** `delete_tcb`: the slot is free again, for another generation.  An item of it that is on a list stays
      there. */
  function Freed(k: Kernel, h: TaskHandle): Kernel
    requires h.slot < |k.slots|
  {
    k.(system := k.system.(vacant := k.system.vacant + {h.slot}),
       slots := k.slots[h.slot := Slot(false, k.slots[h.slot].generation + 1, 0)], freed := k.freed + [h])
  }

  /** Off the delayed, suspended and pending-ready lists. */
  function Parted(k: Kernel, slot: TaskId): Kernel {
    k.(system := Unlisted(k.system, slot), asleep := k.asleep - {slot}, pending := k.pending - {slot})
  }

  /** Marked, for the idle task.  The task's notifications stay in the state they are in. */
  function PutOff(k: Kernel, h: TaskHandle): Kernel
    requires h.slot < |k.slots|
  {
    var mark := NextMark(k.next);
    k.(slots := k.slots[h.slot := k.slots[h.slot].(mark := mark)], next := mark, waiting := (k.waiting + 1) % COUNT,
       deferred := k.deferred + [h])
  }

  /** `task_delete` of a task that some core holds, which is told to yield. */
  function Deferred(k: Kernel, h: TaskHandle, core: nat, me: nat): Kernel
    requires Shape(k) && core < CORES && h.slot < |k.slots|
  {
    PutOff(Parted(k, h.slot), h).(system := YieldCore(Unlisted(k.system, h.slot), me, core))
  }

  /** `task_delete`. */
  function Deleted(k: Kernel, h: TaskHandle, me: nat): Kernel
    requires Shape(k)
  {
    if !Resolves(k, h) then k else
      match HolderOf(k, h)
      case Some(core) => Deferred(k, h, core, me)
      case None => Freed(Parted(k, h.slot), h)
  }

  /** `reap_head`, of the first n slots: the first of the least mark. */
  function ReapHead(slots: seq<Slot>, n: nat): (head: Option<TaskId>)
    requires n <= |slots|
    ensures head.Some? ==> head.value < n && slots[head.value].live && slots[head.value].mark != 0
    ensures head.Some? ==> forall t :: 0 <= t < n && slots[t].live && slots[t].mark != 0 ==> slots[head.value].mark <= slots[t].mark
    ensures head.None? ==> forall t :: 0 <= t < n && slots[t].live ==> slots[t].mark == 0
  {
    if n == 0 then None else
      var head, slot := ReapHead(slots, n - 1), slots[n - 1];
      if slot.live && slot.mark != 0 && (head.None? || slot.mark < slots[head.value].mark) then Some(n - 1) else head
  }

  function ReapOne(k: Kernel, slot: TaskId): Kernel
    requires slot < |k.slots| && k.waiting > 0
  {
    Freed(k.(waiting := k.waiting - 1, reaped := k.reaped + [HandleAt(k, slot)]), HandleAt(k, slot))
  }

  /** `reap_waiting_tasks`. */
  function Reaped(k: Kernel): Kernel
    requires Shape(k)
    decreases k.waiting
  {
    if k.waiting == 0 then k else
      match ReapHead(k.slots, |k.slots|)
      case None => k.(waiting := 0)
      case Some(slot) => if HolderOf(k, HandleAt(k, slot)).Some? then k else Reaped(ReapOne(k, slot))
  }

  /** `notify_state`, of a task none of whose notifications waits any more. */
  function Silenced(awaits: set<Flag>, slot: TaskId): set<Flag> {
    set f | f in awaits && f.slot != slot
  }

  /** `suspend`: off every list and on the suspended one, and no notification is waited for; a core that runs
      the task is told to yield. */
  function Suspended(k: Kernel, h: TaskHandle, me: nat): Kernel
    requires Shape(k)
  {
    if !Resolves(k, h) then k else
      var s := match HolderOf(k, h) case Some(core) => After(k.system, Blocked(core, me)) case None => Unlisted(k.system, h.slot);
      k.(system := s, asleep := k.asleep + {h.slot}, pending := k.pending - {h.slot}, awaits := Silenced(k.awaits, h.slot))
  }

  /** `notify_wait` and `notify_take`, their first half, before the caller puts itself on a delayed list. */
  function Awaited(k: Kernel, core: nat, index: nat): Kernel
    requires Shape(k) && core < CORES
  {
    k.(awaits := k.awaits + {Flag(CurrentOf(k, core).slot, index)})
  }

  /** Their second half. */
  function Answered(k: Kernel, core: nat, index: nat): Kernel
    requires Shape(k) && core < CORES
  {
    k.(awaits := k.awaits - {Flag(CurrentOf(k, core).slot, index)})
  }

  /** A notification that finds a task waiting, wherever the task is: placed, and a core sought ... */
  function Noticed(k: Kernel, h: TaskHandle, level: nat, me: nat): Kernel
    requires Shape(k)
  {
    k.(system := After(After(k.system, Placed(h.slot, level)), Sought(h.slot, level, me)), asleep := k.asleep - {h.slot})
  }

  /** ... or, from an interrupt while the scheduler is suspended, held back. */
  function HeldBack(k: Kernel, h: TaskHandle, level: nat, me: nat): Kernel
    requires Shape(k)
  {
    k.(system := After(k.system, Sought(h.slot, level, me)), pending := k.pending + {h.slot})
  }

  /** `notify_locked`: what the state of the notification says is all it goes by, not the mark. */
  function Notified(k: Kernel, h: TaskHandle, index: nat, level: nat, me: nat, held: bool): Kernel
    requires Shape(k)
  {
    if !Resolves(k, h) || Flag(h.slot, index) !in k.awaits then k else
      var m := if held then HeldBack(k, h, level, me) else Noticed(k, h, level, me);
      m.(awaits := k.awaits - {Flag(h.slot, index)})
  }

  function Occupied(k: Kernel, slot: TaskId): System { k.system.(vacant := k.system.vacant - {slot}) }

  /** `create`: in the slot the arena gives, ready at once. */
  function Created(k: Kernel, slot: TaskId, level: nat, me: nat): Kernel
    requires Shape(k) && slot < |k.slots|
  {
    k.(system := After(Occupied(k, slot), Readied(slot, level, me)), slots := k.slots[slot := k.slots[slot].(live := true, mark := 0)],
       awaits := Silenced(k.awaits, slot))
  }

  /** Scheduling moves tasks between the ready lists and the others, and a switch takes a handle from the
      arena by its slot.  What is woken while the scheduler is suspended is pending until it is placed. */
  function Scheduled(k: Kernel, e: Event): Kernel
    requires Shape(k)
  {
    var s, t := k.system, After(k.system, e);
    var asleep := match e
      case Readied(task, _, _) => k.asleep - {task}
      case Placed(task, _) => k.asleep - {task}
      case Removed(task, _) => k.asleep + {task}
      case Blocked(core, _) => if core < CORES then k.asleep + {s.cores[core].task} else k.asleep
      case _ => k.asleep;
    var pending := match e
      case Readied(task, _, _) => k.pending - {task}
      case Placed(task, _) => k.pending - {task}
      case Sought(task, _, _) => k.pending + {task}
      case _ => k.pending;
    var holds := match e
      case Switched(core) => if core < CORES then k.holds[core := Taken(k, t, core)] else k.holds
      case _ => k.holds;
    k.(system := t, asleep := asleep, pending := pending, holds := holds)
  }

  function Taken(k: Kernel, t: System, core: nat): nat
    requires Shape(k) && core < CORES && |t.cores| == CORES
  {
    var task := t.cores[core].task;
    if task != k.system.cores[core].task && task < |k.slots| then k.slots[task].generation else k.holds[core]
  }

  function AfterStep(k: Kernel, step: Step): Kernel
    requires Shape(k)
  {
    match step
    case Create(slot, level, me) => if slot < |k.slots| then Created(k, slot, level, me) else k
    case Delete(h, me) => Deleted(k, h, me)
    case Suspend(h, me) => Suspended(k, h, me)
    case Reap => Reaped(k)
    case Await(core, index) => if core < CORES then Awaited(k, core, index) else k
    case Answer(core, index) => if core < CORES then Answered(k, core, index) else k
    case Notify(h, index, level, me, held) => Notified(k, h, index, level, me, held)
    case Schedule(e) => Scheduled(k, e)
  }

  // ------------------------------------------------------ what is kept --

  predicate Live(k: Kernel, slot: TaskId) { slot < |k.slots| && k.slots[slot].live }

  predicate Stale(k: Kernel, h: TaskHandle) { h.slot < |k.slots| && h.generation < k.slots[h.slot].generation }

  /** What a core holds is live; what is ready is live and sleeps on no list; the scheduler knows which slots
      are free; no idle task was deleted; what was freed was freed once, and its handle names nothing any more. */
  ghost predicate LiveOk(k: Kernel)
    requires Shape(k)
  {
    && (forall c :: 0 <= c < CORES ==> Resolves(k, CurrentOf(k, c)))
    && (forall t :: IsReady(k.system, t) ==> Live(k, t) && t !in k.asleep)
    && (forall t :: t in k.asleep || t in k.pending ==> t < |k.slots|)
    && (forall t :: 0 <= t < |k.slots| ==> (t in k.system.vacant <==> !k.slots[t].live))
    && (forall t :: 0 <= t < |k.slots| && k.slots[t].mark != 0 ==> k.slots[t].live && t !in k.system.idle)
    && Distinct(k.freed) && forall h :: h in k.freed ==> Stale(k, h)
  }

  ghost predicate Alive(k: Kernel) { Shape(k) && Sound(k.system) && IdleReady(k.system) && LiveOk(k) }

  /** What the kernel does and demands: for a new task a free slot that no list has an item of, and a level; no
      deletion or suspension of an idle task; a notification knows the task's level; what is readied or held
      back otherwise sleeps, and what is placed at a resume was held back. */
  ghost predicate CanStep(k: Kernel, step: Step)
    requires Alive(k)
  {
    match step
    case Create(slot, level, me) =>
      && slot < |k.slots| && !k.slots[slot].live && level < |k.system.lists| && me < CORES
      && slot !in k.asleep && slot !in k.pending && LevelOf(k.system.lists, slot).None?
    case Delete(h, me) => me < CORES && h.slot !in k.system.idle
    case Suspend(h, me) => me < CORES && h.slot !in k.system.idle
    case Reap => true
    case Await(core, _) => core < CORES
    case Answer(core, _) => core < CORES
    case Notify(h, index, level, me, _) =>
      me < CORES && (Resolves(k, h) && Flag(h.slot, index) in k.awaits ==> Possible(k.system, Placed(h.slot, level)))
    case Schedule(e) =>
      && Possible(k.system, e) && !e.Vacated?
      && (e.Readied? || e.Sought? ==> e.task in k.asleep) && (e.Placed? ==> e.task in k.pending)
  }

  lemma HeldIsLive(k: Kernel, slot: TaskId)
    requires Alive(k) && Held(k.system, slot)
    ensures Live(k, slot)
  {
    assert Resolves(k, CurrentOf(k, 0)) && Resolves(k, CurrentOf(k, 1));
  }

  lemma ScheduleKeeps(k: Kernel, e: Event)
    requires Alive(k) && CanStep(k, Schedule(e))
    ensures Alive(Scheduled(k, e))
  {
    hide Sound, IdleReady, After, Distinct, IsReady;
    StepKeepsSound(k.system, e);
    StepMoves(k.system, e);
    VacancyStays(k.system, e);
    if e.Removed? { FreeIsReady(k.system, e.task, e.level); }
    var m := Scheduled(k, e);
    assert e.Blocked? ==> Resolves(k, CurrentOf(k, e.core));
    forall c | 0 <= c < CORES ensures Resolves(m, CurrentOf(m, c)) {
      assert Resolves(k, CurrentOf(k, c));
    }
  }

  lemma FreeIsReady(s: System, task: TaskId, level: int)
    requires |s.cores| == CORES && Free(s, task, level)
    ensures IsReady(s, task)
  {
  }

  lemma FreeSlotIsUnused(k: Kernel, slot: TaskId, level: nat, me: nat)
    requires Alive(k) && CanStep(k, Create(slot, level, me))
    ensures var s := Occupied(k, slot);
      && Sound(s) && IdleReady(s) && (Covered(k.system) ==> Covered(s)) && Possible(s, Readied(slot, level, me))
      && (forall u :: IsReady(s, u) <==> IsReady(k.system, u)) && !Held(k.system, slot) && !IsReady(k.system, slot)
  {
    hide Sound, Covered;
    OccupiedKeeps(k.system, slot);
    assert CurrentOf(k, 0).slot != slot && CurrentOf(k, 1).slot != slot;
    assert forall i :: i in k.system.idle ==> Ready(Occupied(k, slot), i, 0);
  }

  lemma CreateKeeps(k: Kernel, slot: TaskId, level: nat, me: nat)
    requires Alive(k) && CanStep(k, Create(slot, level, me))
    ensures Alive(Created(k, slot, level, me))
  {
    hide Sound, After, Distinct, IdleReady, IsReady, Possible;
    FreeSlotIsUnused(k, slot, level, me);
    var s, e, m := Occupied(k, slot), Readied(slot, level, me), Created(k, slot, level, me);
    StepKeepsSound(s, e);
    StepMoves(s, e);
    VacancyStays(s, e);
    forall c | 0 <= c < CORES ensures Resolves(m, CurrentOf(m, c)) {
      assert Resolves(k, CurrentOf(k, c));
    }
  }

  lemma FreedKeeps(k: Kernel, h: TaskHandle)
    requires Alive(k) && Resolves(k, h) && HolderOf(k, h).None? && h.slot !in k.system.idle
    ensures Alive(Freed(k, h)) && Freed(k, h).system == After(k.system, Vacated(h.slot))
    ensures Possible(k.system, Vacated(h.slot))
  {
    hide Sound, IdleReady, IsReady;
    OnlyHolderHolds(k, h);
    StepKeepsSound(k.system, Vacated(h.slot));
    StepMoves(k.system, Vacated(h.slot));
    var m := Freed(k, h);
    forall c | 0 <= c < CORES ensures Resolves(m, CurrentOf(m, c)) {
      assert Resolves(k, CurrentOf(k, c)) && CurrentOf(k, c) != h;
    }
    assert h !in k.freed;
  }

  lemma DeferredKeeps(k: Kernel, h: TaskHandle, core: nat, me: nat)
    requires Alive(k) && core < CORES && me < CORES && CurrentOf(k, core) == h && h.slot !in k.system.idle
    ensures Alive(Deferred(k, h, core, me))
    ensures Deferred(k, h, core, me).system == After(After(k.system, Blocked(core, me)), Asked(core, me))
    ensures !IsReady(Deferred(k, h, core, me).system, h.slot)
  {
    hide Sound, IdleReady, IsReady, After, Distinct;
    assert Resolves(k, CurrentOf(k, core));
    UnlistedHeld(k.system, core, me);
    StepKeepsSound(k.system, Blocked(core, me));
    StepMoves(k.system, Blocked(core, me));
    VacancyStays(k.system, Blocked(core, me));
    var half := After(k.system, Blocked(core, me));
    StepKeepsSound(half, Asked(core, me));
    StepMoves(half, Asked(core, me));
    VacancyStays(half, Asked(core, me));
    var m := Deferred(k, h, core, me);
    forall c | 0 <= c < CORES ensures Resolves(m, CurrentOf(m, c)) {
      assert Resolves(k, CurrentOf(k, c));
    }
  }

  /** The system after a task is taken off its list, as a step of the scheduler, if the task was ready. */
  ghost predicate Removal(s: System, task: TaskId, m: System)
    requires Sound(s)
  {
    if IsReady(s, task) then exists l: nat :: Free(s, task, l) && m == After(s, Removed(task, l)) else m == s
  }

  lemma OnlyHolderHolds(k: Kernel, h: TaskHandle)
    requires Alive(k) && Resolves(k, h)
    ensures HolderOf(k, h).None? <==> !Held(k.system, h.slot)
  {
    assert Resolves(k, CurrentOf(k, 0)) && Resolves(k, CurrentOf(k, 1));
  }

  /** As k but for one task, which is off its list, and asleep or not. */
  predicate PartedIs(k: Kernel, h: TaskHandle, m: Kernel) {
    && m.system == Unlisted(k.system, h.slot) && m.slots == k.slots && m.holds == k.holds && m.freed == k.freed
    && (m.asleep == k.asleep - {h.slot} || m.asleep == k.asleep + {h.slot}) && m.pending == k.pending - {h.slot}
  }

  lemma RemovalKeeps(k: Kernel, h: TaskHandle, m: Kernel)
    requires Alive(k) && Resolves(k, h) && HolderOf(k, h).None? && h.slot !in k.system.idle && PartedIs(k, h, m)
    ensures Alive(m) && Removal(k.system, h.slot, m.system) && m.system.cores == k.system.cores && m.system.idle == k.system.idle
    ensures forall u :: IsReady(m.system, u) <==> IsReady(k.system, u) && u != h.slot
  {
    hide Sound, IdleReady, IsReady, Distinct, Unlisted, After;
    OnlyHolderHolds(k, h);
    UnlistedFree(k.system, h.slot);
    if IsReady(k.system, h.slot) {
      var l: nat :| Free(k.system, h.slot, l) && Unlisted(k.system, h.slot) == After(k.system, Removed(h.slot, l));
      StepKeepsSound(k.system, Removed(h.slot, l));
      StepMoves(k.system, Removed(h.slot, l));
      VacancyStays(k.system, Removed(h.slot, l));
    }
    forall c | 0 <= c < CORES ensures Resolves(m, CurrentOf(m, c)) {
      assert Resolves(k, CurrentOf(k, c));
    }
    assert forall u :: Stale(m, u) <==> Stale(k, u);
  }

  lemma DeleteKeeps(k: Kernel, h: TaskHandle, me: nat)
    requires Alive(k) && CanStep(k, Delete(h, me))
    ensures Alive(Deleted(k, h, me))
  {
    hide Sound, IdleReady, LiveOk;
    if Resolves(k, h) {
      match HolderOf(k, h)
      case Some(core) => DeferredKeeps(k, h, core, me);
      case None =>
        RemovalKeeps(k, h, Parted(k, h.slot));
        FreedKeeps(Parted(k, h.slot), h);
    }
  }

  lemma SuspendKeeps(k: Kernel, h: TaskHandle, me: nat)
    requires Alive(k) && CanStep(k, Suspend(h, me))
    ensures Alive(Suspended(k, h, me))
    ensures Resolves(k, h) ==> forall u :: IsReady(Suspended(k, h, me).system, u) <==> IsReady(k.system, u) && u != h.slot
  {
    hide Sound, IdleReady, IsReady, After, Distinct, Unlisted;
    if Resolves(k, h) {
      var m := Suspended(k, h, me);
      match HolderOf(k, h)
      case Some(core) =>
        ScheduleKeeps(k, Blocked(core, me));
        StepMoves(k.system, Blocked(core, me));
        var half := Scheduled(k, Blocked(core, me));
        assert m == half.(pending := k.pending - {h.slot}, awaits := Silenced(k.awaits, h.slot));
        WaitsAside(half, m);
      case None => RemovalKeeps(k, h, m);
    }
  }

  /** The state of the notifications, and being pending no more, matter to nobody's life. */
  lemma WaitsAside(k: Kernel, m: Kernel)
    requires Alive(k) && m == k.(pending := m.pending, awaits := m.awaits) && m.pending <= k.pending
    ensures Alive(m)
  {
    hide Sound, IdleReady, IsReady, Distinct;
    forall c | 0 <= c < CORES ensures Resolves(m, CurrentOf(m, c)) {
      assert Resolves(k, CurrentOf(k, c));
    }
    assert forall t :: Live(m, t) <==> Live(k, t);
    assert forall h :: Stale(m, h) <==> Stale(k, h);
  }

  lemma WaitKeeps(k: Kernel, core: nat, index: nat)
    requires Alive(k) && core < CORES
    ensures Alive(Awaited(k, core, index)) && Alive(Answered(k, core, index))
  {
    hide Sound, IdleReady, LiveOk;
    WaitsAside(k, Awaited(k, core, index));
    WaitsAside(k, Answered(k, core, index));
  }

  /** A notification of a task whose state is Waiting: it may be asleep, ready, or on no list. */
  lemma NotifyKeeps(k: Kernel, h: TaskHandle, index: nat, level: nat, me: nat, held: bool)
    requires Alive(k) && CanStep(k, Notify(h, index, level, me, held))
    ensures Alive(Notified(k, h, index, level, me, held))
  {
    hide Sound, IdleReady, LiveOk, After;
    var m := Notified(k, h, index, level, me, held);
    if Resolves(k, h) && Flag(h.slot, index) in k.awaits {
      if held {
        HoldingBackKeeps(k, h, level, me);
        WaitsAside(HeldBack(k, h, level, me), m);
      } else {
        NoticeKeeps(k, h, level, me);
        WaitsAside(Noticed(k, h, level, me), m);
      }
    }
  }

  lemma HoldingBackKeeps(k: Kernel, h: TaskHandle, level: nat, me: nat)
    requires Alive(k) && Resolves(k, h) && me < CORES
    ensures var m := HeldBack(k, h, level, me);
      && Alive(m) && (forall u :: IsReady(m.system, u) <==> IsReady(k.system, u))
      && forall c :: 0 <= c < CORES ==> CurrentOf(m, c) == CurrentOf(k, c)
  {
    hide Sound, IdleReady, After, Distinct, IsReady;
    var e, m := Sought(h.slot, level, me), HeldBack(k, h, level, me);
    StepKeepsSound(k.system, e);
    StepMoves(k.system, e);
    VacancyStays(k.system, e);
    forall c | 0 <= c < CORES ensures CurrentOf(m, c) == CurrentOf(k, c) && Resolves(m, CurrentOf(m, c)) {
      assert Resolves(k, CurrentOf(k, c));
    }
    assert forall u :: Stale(m, u) <==> Stale(k, u);
  }

  lemma NoticeKeeps(k: Kernel, h: TaskHandle, level: nat, me: nat)
    requires Alive(k) && Resolves(k, h) && me < CORES && Possible(k.system, Placed(h.slot, level))
    ensures var m := Noticed(k, h, level, me);
      && Alive(m) && (forall u :: IsReady(m.system, u) <==> IsReady(k.system, u) || u == h.slot)
      && forall c :: 0 <= c < CORES ==> CurrentOf(m, c) == CurrentOf(k, c)
  {
    hide Sound, IdleReady, After, Distinct, IsReady;
    var a, b, m := Placed(h.slot, level), Sought(h.slot, level, me), Noticed(k, h, level, me);
    StepKeepsSound(k.system, a);
    StepMoves(k.system, a);
    VacancyStays(k.system, a);
    var half := After(k.system, a);
    StepKeepsSound(half, b);
    StepMoves(half, b);
    VacancyStays(half, b);
    forall c | 0 <= c < CORES ensures CurrentOf(m, c) == CurrentOf(k, c) && Resolves(m, CurrentOf(m, c)) {
      assert Resolves(k, CurrentOf(k, c));
    }
    assert forall u :: Stale(m, u) <==> Stale(k, u);
  }

  lemma ReapOneKeeps(k: Kernel, slot: TaskId)
    requires Alive(k) && slot < |k.slots| && k.waiting > 0 && k.slots[slot].live && slot !in k.system.idle
    requires HolderOf(k, HandleAt(k, slot)).None?
    ensures Alive(ReapOne(k, slot)) && ReapOne(k, slot).system == After(k.system, Vacated(slot))
    ensures Possible(k.system, Vacated(slot))
  {
    hide Sound, IdleReady, IsReady;
    var half := k.(waiting := k.waiting - 1, reaped := k.reaped + [HandleAt(k, slot)]);
    assert forall c :: 0 <= c < CORES ==> CurrentOf(half, c) == CurrentOf(k, c) && Resolves(half, CurrentOf(half, c));
    FreedKeeps(half, HandleAt(k, slot));
  }

  lemma CountsAside(k: Kernel, waiting: nat)
    requires Alive(k)
    ensures Alive(k.(waiting := waiting))
  {
    hide Sound, IdleReady, IsReady, Distinct;
    var m := k.(waiting := waiting);
    forall c | 0 <= c < CORES ensures Resolves(m, CurrentOf(m, c)) {
      assert Resolves(k, CurrentOf(k, c));
    }
    assert forall t :: Live(m, t) <==> Live(k, t);
    assert forall h :: Stale(m, h) <==> Stale(k, h);
  }

  lemma HeadIsNotIdle(k: Kernel, slot: TaskId)
    requires Alive(k) && slot < |k.slots| && k.slots[slot].mark != 0
    ensures slot !in k.system.idle
  {
  }

  lemma {:induction false} ReapKeeps(k: Kernel)
    requires Alive(k)
    ensures Alive(Reaped(k)) && (Covered(k.system) ==> Covered(Reaped(k).system))
    ensures Reaped(k).system.cores == k.system.cores && Reaped(k).system.lists == k.system.lists
    ensures Reaped(k).asleep == k.asleep && Reaped(k).pending == k.pending && Reaped(k).awaits == k.awaits
    ensures Reaped(k).holds == k.holds
    decreases k.waiting
  {
    hide Sound, IdleReady, ReapHead, Covered, IsReady, LiveOk;
    var head := ReapHead(k.slots, |k.slots|);
    CountsAside(k, 0);
    if k.waiting > 0 && head.Some? && HolderOf(k, HandleAt(k, head.value)).None? {
      assert head.value !in k.system.idle by { HeadIsNotIdle(k, head.value); }
      ReapOneKeeps(k, head.value);
      if Covered(k.system) { StepKeeps(k.system, Vacated(head.value)); }
      ReapKeeps(ReapOne(k, head.value));
    }
  }

  lemma StepKeepsAlive(k: Kernel, step: Step)
    requires Alive(k) && CanStep(k, step)
    ensures Alive(AfterStep(k, step))
  {
    hide Alive, Created, Deleted, Suspended, Reaped, Notified, Scheduled;
    match step
    case Create(slot, level, me) => CreateKeeps(k, slot, level, me);
    case Delete(h, me) => DeleteKeeps(k, h, me);
    case Suspend(h, me) => SuspendKeeps(k, h, me);
    case Reap => ReapKeeps(k);
    case Await(core, index) => WaitKeeps(k, core, index);
    case Answer(core, index) => WaitKeeps(k, core, index);
    case Notify(h, index, level, me, held) => NotifyKeeps(k, h, index, level, me, held);
    case Schedule(e) => ScheduleKeeps(k, e);
  }

  // ------------------------------------------------ what each call leaves --

  /** A new task is live in its slot, at the end of the ready list of its level, waits for nothing, and nothing
      else of the arena or the lists changes. */
  lemma CreatedExactly(k: Kernel, slot: TaskId, level: nat, me: nat)
    requires Alive(k) && CanStep(k, Create(slot, level, me))
    ensures var m := Created(k, slot, level, me);
      && m.slots == k.slots[slot := Slot(true, k.slots[slot].generation, 0)] && Ready(m.system, slot, level)
      && m.system.lists == k.system.lists[level := k.system.lists[level] + [slot]]
      && m.system.vacant == k.system.vacant - {slot} && m.asleep == k.asleep && m.pending == k.pending
      && (forall f :: f in m.awaits <==> f in k.awaits && f.slot != slot)
      && m.holds == k.holds && m.next == k.next && m.waiting == k.waiting && m.freed == k.freed
      && m.system.cores == YieldForTask(AddReady(Occupied(k, slot), slot, level), me, slot, level).cores
  {
    hide Sound, IdleReady, LiveOk, YieldForTask;
    YieldMovesNobody(AddReady(Occupied(k, slot), slot, level), me, slot, level);
    assert (k.system.lists[level] + [slot])[|k.system.lists[level]|] == slot;
  }

  /** A task deleted is on no list.  Where a core holds it, it is marked with the next number, counted, and that
      core owes a switch; else its slot is free for the next generation. */
  lemma DeletedExactly(k: Kernel, h: TaskHandle, me: nat)
    requires Alive(k) && CanStep(k, Delete(h, me)) && Resolves(k, h)
    ensures var m := Deleted(k, h, me);
      && Shape(m) && !IsReady(m.system, h.slot) && (forall u :: u != h.slot ==> (IsReady(m.system, u) <==> IsReady(k.system, u)))
      && (forall u :: u in m.asleep <==> u in k.asleep && u != h.slot)
      && (forall u :: u in m.pending <==> u in k.pending && u != h.slot)
      && m.awaits == k.awaits && m.holds == k.holds && (forall u :: 0 <= u < |k.slots| == |m.slots| && u != h.slot ==> m.slots[u] == k.slots[u])
      && |m.slots| == |k.slots|
      && if CurrentOf(k, 0) == h || CurrentOf(k, 1) == h then
           var c := if CurrentOf(k, 0) == h then 0 else 1;
           && m.next == (if k.next + 1 == 0x1_0000_0000 then 1 else k.next + 1)
           && m.slots[h.slot] == Slot(true, h.generation, m.next) && m.freed == k.freed
           && m.waiting == (k.waiting + 1) % 0x1_0000 && m.deferred == k.deferred + [h]
           && m.system.cores[1 - c] == k.system.cores[1 - c] && m.system.vacant == k.system.vacant
           && (if c == me then m.system.cores[c].pending else m.system.cores[c].requested)
         else
           && m.slots[h.slot] == Slot(false, h.generation + 1, 0) && m.freed == k.freed + [h]
           && m.next == k.next && m.waiting == k.waiting && m.deferred == k.deferred
           && m.system.cores == k.system.cores && m.system.vacant == k.system.vacant + {h.slot}
  {
    hide Sound, IdleReady, LiveOk, IsReady, Unlisted, After;
    match HolderOf(k, h)
    case Some(core) =>
      DeferredKeeps(k, h, core, me);
      DeferredMoves(k, h, core, me);
    case None =>
      var p := Parted(k, h.slot);
      RemovalKeeps(k, h, p);
      FreedKeeps(p, h);
      StepMoves(p.system, Vacated(h.slot));
      VacancyUnlisted(k.system, h.slot);
  }

  lemma VacancyUnlisted(s: System, task: TaskId)
    ensures Unlisted(s, task).vacant == s.vacant && Unlisted(s, task).cores == s.cores
  {
  }

  lemma DeferredMoves(k: Kernel, h: TaskHandle, core: nat, me: nat)
    requires Alive(k) && core < CORES && me < CORES && CurrentOf(k, core) == h && h.slot !in k.system.idle
    requires h.slot < |k.slots|
    ensures var m := Deferred(k, h, core, me);
      && Shape(m) && (forall u :: u != h.slot ==> (IsReady(m.system, u) <==> IsReady(k.system, u)))
      && m.system.cores[1 - core] == k.system.cores[1 - core] && m.system.vacant == k.system.vacant
      && (if core == me then m.system.cores[core].pending else m.system.cores[core].requested)
  {
    hide Sound, IdleReady, LiveOk, IsReady, Unlisted, After;
    DeferredKeeps(k, h, core, me);
    StepKeepsSound(k.system, Blocked(core, me));
    StepMoves(k.system, Blocked(core, me));
    StepMoves(After(k.system, Blocked(core, me)), Asked(core, me));
    VacancyUnlisted(k.system, h.slot);
  }

  /** A task suspended is asleep and not pending, ready nowhere, and waits for no notification; nothing else of
      the arena changes. */
  lemma SuspendedExactly(k: Kernel, h: TaskHandle, me: nat)
    requires Alive(k) && CanStep(k, Suspend(h, me)) && Resolves(k, h)
    ensures var m := Suspended(k, h, me);
      && Shape(m) && h.slot in m.asleep && !IsReady(m.system, h.slot)
      && (forall u :: u != h.slot ==> (IsReady(m.system, u) <==> IsReady(k.system, u)))
      && (forall u :: u != h.slot ==> (u in m.asleep <==> u in k.asleep))
      && (forall u :: u in m.pending <==> u in k.pending && u != h.slot)
      && (forall f :: f in m.awaits <==> f in k.awaits && f.slot != h.slot)
      && m.slots == k.slots && m.holds == k.holds && m.freed == k.freed && m.next == k.next && m.waiting == k.waiting
      && (CurrentOf(k, 0) != h && CurrentOf(k, 1) != h ==> m.system.cores == k.system.cores)
      && (forall c :: 0 <= c < CORES && CurrentOf(k, c) == h ==> m.system.cores[c].Flagged())
  {
    hide Sound, IdleReady, LiveOk, IsReady, Unlisted, After;
    SuspendKeeps(k, h, me);
    match HolderOf(k, h)
    case Some(core) =>
      BlockedIsSound(k.system, core, me);
      BlockedFlags(k, core, me);
    case None => VacancyUnlisted(k.system, h.slot);
  }

  lemma BlockedFlags(k: Kernel, core: nat, me: nat)
    requires Alive(k) && core < CORES && me < CORES
    ensures After(k.system, Blocked(core, me)).cores[core].Flagged()
    ensures CurrentOf(k, 1 - core) != CurrentOf(k, core)
  {
    hide IdleReady, LiveOk, After;
    BlockedIsSound(k.system, core, me);
  }

  /** A notification that finds its task waiting ends that wait.  Unless it is held back, the task is ready and
      sleeps no more; held back, it is pending, and as ready or asleep as before.  Any other does nothing. */
  lemma NotifiedExactly(k: Kernel, h: TaskHandle, index: nat, level: nat, me: nat, held: bool)
    requires Alive(k) && CanStep(k, Notify(h, index, level, me, held))
    ensures var m, finds := Notified(k, h, index, level, me, held), Resolves(k, h) && Flag(h.slot, index) in k.awaits;
      && (!finds ==> m == k)
      && (forall f :: f in m.awaits <==> f in k.awaits && !(finds && f == Flag(h.slot, index)))
      && m.slots == k.slots && m.holds == k.holds && m.freed == k.freed && m.next == k.next && m.waiting == k.waiting
      && (forall u :: IsReady(m.system, u) <==> IsReady(k.system, u) || (finds && !held && u == h.slot))
      && (forall u :: u in m.asleep <==> u in k.asleep && !(finds && !held && u == h.slot))
      && (forall u :: u in m.pending <==> u in k.pending || (finds && held && u == h.slot))
  {
    hide Sound, IdleReady, LiveOk, IsReady, After;
    if Resolves(k, h) && Flag(h.slot, index) in k.awaits {
      if held { HoldingBackKeeps(k, h, level, me); } else { NoticeKeeps(k, h, level, me); }
    }
  }

  // -------------------------------------------------- over any history --

  ghost predicate CanHappen(k: Kernel, steps: seq<Step>)
    requires Alive(k)
    decreases |steps|
  {
    steps == [] || (CanStep(k, steps[0]) && (StepKeepsAlive(k, steps[0]); CanHappen(AfterStep(k, steps[0]), steps[1..])))
  }

  ghost function History(k: Kernel, steps: seq<Step>): Kernel
    requires Alive(k) && CanHappen(k, steps)
    decreases |steps|
  {
    if steps == [] then k else
      StepKeepsAlive(k, steps[0]);
      History(AfterStep(k, steps[0]), steps[1..])
  }

  /** Whatever is created, deleted, notified, reaped and scheduled, what a core holds is live, nothing freed is held
      or named again, and each freed task was freed once. */
  lemma {:induction false} RunningTasksLive(k: Kernel, steps: seq<Step>)
    requires Alive(k) && CanHappen(k, steps)
    ensures var m := History(k, steps);
      && Alive(m) && Distinct(m.freed)
      && (forall c :: 0 <= c < CORES ==> Resolves(m, CurrentOf(m, c)))
      && (forall h :: h in m.freed ==> !Resolves(m, h) && CurrentOf(m, 0) != h && CurrentOf(m, 1) != h)
    decreases |steps|
  {
    hide Sound, IdleReady, IsReady, AfterStep;
    if steps == [] {
      assert Resolves(k, CurrentOf(k, 0)) && Resolves(k, CurrentOf(k, 1));
      assert forall h :: h in k.freed ==> Stale(k, h);
    } else {
      StepKeepsAlive(k, steps[0]);
      RunningTasksLive(AfterStep(k, steps[0]), steps[1..]);
    }
  }

  /** Whatever the lists hold: no deletion, suspension, creation, notification or reaping takes a task from under
      a core. */
  lemma HeldIsNeverFreed(k: Kernel, step: Step, core: nat)
    requires Shape(k) && core < CORES && Resolves(k, CurrentOf(k, core)) && !step.Schedule?
    requires step.Create? ==> step.slot < |k.slots| && !k.slots[step.slot].live
    ensures var m := AfterStep(k, step); Shape(m) && CurrentOf(m, core) == CurrentOf(k, core) && Resolves(m, CurrentOf(k, core))
  {
    hide Reaped, Without;
    match step {
      case Create(slot, level, me) =>
        if level < |k.system.lists| { YieldMovesNobody(AddReady(Occupied(k, slot), slot, level), me, slot, level); }
      case Delete(h, me) => assert Unlisted(k.system, h.slot).cores == k.system.cores;
      case Suspend(h, me) => assert Unlisted(k.system, h.slot).cores == k.system.cores;
      case Reap => ReapLeavesHeld(k, core);
      case Await(c, index) =>
      case Answer(c, index) =>
      case Notify(h, index, level, me, held) => NoticeMovesNobody(k.system, h.slot, level, me);
    }
  }

  lemma NoticeMovesNobody(s: System, task: TaskId, level: nat, me: nat)
    requires |s.cores| == CORES
    ensures var t := After(s, Sought(task, level, me)); forall c :: 0 <= c < CORES ==> t.cores[c].task == s.cores[c].task
    ensures var t := After(After(s, Placed(task, level)), Sought(task, level, me));
      forall c :: 0 <= c < CORES ==> t.cores[c].task == s.cores[c].task
  {
    hide Without, YieldForTask;
    YieldMovesNobody(s, me, task, level);
    YieldMovesNobody(After(s, Placed(task, level)), me, task, level);
  }

  lemma {:induction false} ReapLeavesHeld(k: Kernel, core: nat)
    requires Shape(k) && core < CORES && Resolves(k, CurrentOf(k, core))
    ensures var m := Reaped(k); Shape(m) && CurrentOf(m, core) == CurrentOf(k, core) && Resolves(m, CurrentOf(k, core))
    decreases k.waiting
  {
    hide ReapHead;
    if k.waiting > 0 {
      var head := ReapHead(k.slots, |k.slots|);
      if head.Some? && HolderOf(k, HandleAt(k, head.value)).None? { ReapLeavesHeld(ReapOne(k, head.value), core); }
    }
  }

  /** Deleted, whether freed by now or not. */
  predicate WasDeleted(k: Kernel, h: TaskHandle) {
    Stale(k, h) || (Resolves(k, h) && k.slots[h.slot].mark != 0)
  }

  lemma {:induction false} ReapSteps(k: Kernel, h: TaskHandle)
    requires Shape(k) && WasDeleted(k, h)
    ensures WasDeleted(Reaped(k), h) && (Resolves(Reaped(k), h) ==> Resolves(k, h))
    decreases k.waiting
  {
    if k.waiting > 0 {
      var head := ReapHead(k.slots, |k.slots|);
      if head.Some? && HolderOf(k, HandleAt(k, head.value)).None? { ReapSteps(ReapOne(k, head.value), h); }
    }
  }

  // ------------------------------------------------ on the cores' defence --

  /** A notification finds it waiting: its state was Waiting at the deletion, or it has begun to wait since. */
  predicate Notices(k: Kernel, step: Step, h: TaskHandle) {
    Resolves(k, h) && match step
      case Notify(g, index, _, _, _) => g == h && Flag(h.slot, index) in k.awaits
      case _ => false
  }

  /** A step that breaks the defence of the cores: one of the scheduler that does, or a notification that readies
      what such a step must not ready. */
  ghost predicate StepCrowds(k: Kernel, step: Step)
    requires Shape(k)
  {
    match step
    case Schedule(e) => Crowds(k.system, e)
    case Notify(h, _, level, me, held) =>
      !held && Notices(k, step, h) && !IsReady(k.system, h.slot) && Crowds(k.system, Readied(h.slot, level, me))
    case _ => false
  }

  /** Creating, deleting, suspending and reaping crowd nobody, nor does a notification of a task that is ready or
      while it is held back: the two cores stay defended, so the kernel is optimal whenever it is settled,
      exactly over the other steps. */
  lemma StepKeepsCovered(k: Kernel, step: Step)
    requires Alive(k) && CanStep(k, step) && Covered(k.system)
    ensures |AfterStep(k, step).system.cores| == CORES
    ensures Covered(AfterStep(k, step).system) <==> !StepCrowds(k, step)
  {
    hide Sound, IdleReady, IsReady, After, Covered, LiveOk, Unlisted, Crowds;
    match step {
      case Create(slot, level, me) =>
        FreeSlotIsUnused(k, slot, level, me);
        CreatedCrowdsNobody(Occupied(k, slot), slot, level, me);
        StepKeeps(Occupied(k, slot), Readied(slot, level, me));
      case Delete(h, me) => DeleteKeepsCovered(k, h, me);
      case Suspend(h, me) => SuspendKeepsCovered(k, h, me);
      case Reap => ReapKeeps(k);
      case Await(core, index) =>
      case Answer(core, index) =>
      case Notify(h, index, level, me, held) => NotifyKeepsCovered(k, h, index, level, me, held);
      case Schedule(e) => StepKeeps(k.system, e);
    }
  }

  lemma CreatedCrowdsNobody(s: System, slot: TaskId, level: nat, me: nat)
    requires |s.cores| == CORES && !Held(s, slot)
    ensures !Crowds(s, Readied(slot, level, me))
  {
  }

  lemma NotifyKeepsCovered(k: Kernel, h: TaskHandle, index: nat, level: nat, me: nat, held: bool)
    requires Alive(k) && CanStep(k, Notify(h, index, level, me, held)) && Covered(k.system)
    ensures |Notified(k, h, index, level, me, held).system.cores| == CORES
    ensures Covered(Notified(k, h, index, level, me, held).system) <==> !StepCrowds(k, Notify(h, index, level, me, held))
  {
    hide Sound, IdleReady, After, Covered, LiveOk, Crowds;
    if Notices(k, Notify(h, index, level, me, held), h) {
      var a, b, s := Placed(h.slot, level), Sought(h.slot, level, me), k.system;
      NeverCrowds(s, h.slot, level, me);
      if held {
        StepKeeps(s, b);
      } else if IsReady(s, h.slot) {
        StepKeeps(s, a);
        NeverCrowds(After(s, a), h.slot, level, me);
        StepKeeps(After(s, a), b);
      } else {
        assert Possible(s, Readied(h.slot, level, me));
        ReadiedIsPlaced(s, h.slot, level, me);
        StepKeeps(s, Readied(h.slot, level, me));
      }
    }
  }

  lemma NeverCrowds(s: System, task: TaskId, level: nat, me: nat)
    requires |s.cores| == CORES
    ensures !Crowds(s, Sought(task, level, me))
    ensures Sound(s) && Possible(s, Placed(task, level)) && IsReady(s, task) ==> !Crowds(s, Placed(task, level))
  {
  }

  lemma RemovalKeepsCovered(s: System, task: TaskId, m: System)
    requires Sound(s) && IdleReady(s) && Covered(s) && Removal(s, task, m) && task !in s.idle
    ensures |m.cores| == CORES && Covered(m)
  {
    hide Listed, CoreOk, IdleReady, IsReady, After, Covered;
    if IsReady(s, task) {
      var l: nat :| Free(s, task, l) && m == After(s, Removed(task, l));
      StepKeeps(s, Removed(task, l));
    }
  }

  lemma DeleteKeepsCovered(k: Kernel, h: TaskHandle, me: nat)
    requires Alive(k) && CanStep(k, Delete(h, me)) && Covered(k.system)
    ensures |Deleted(k, h, me).system.cores| == CORES && Covered(Deleted(k, h, me).system)
  {
    hide Sound, IdleReady, IsReady, After, Covered, LiveOk, Unlisted, Removal;
    if Resolves(k, h) {
      match HolderOf(k, h)
      case Some(core) =>
        DeferredKeeps(k, h, core, me);
        StepKeeps(k.system, Blocked(core, me));
        StepKeeps(After(k.system, Blocked(core, me)), Asked(core, me));
      case None =>
        RemovalKeeps(k, h, Parted(k, h.slot));
        RemovalKeepsCovered(k.system, h.slot, Unlisted(k.system, h.slot));
        FreedKeeps(Parted(k, h.slot), h);
        StepKeeps(Parted(k, h.slot).system, Vacated(h.slot));
    }
  }

  lemma SuspendKeepsCovered(k: Kernel, h: TaskHandle, me: nat)
    requires Alive(k) && CanStep(k, Suspend(h, me)) && Covered(k.system)
    ensures |Suspended(k, h, me).system.cores| == CORES && Covered(Suspended(k, h, me).system)
  {
    hide Sound, IdleReady, IsReady, After, Covered, LiveOk, Unlisted, Removal;
    if Resolves(k, h) {
      match HolderOf(k, h)
      case Some(core) => StepKeeps(k.system, Blocked(core, me));
      case None =>
        RemovalKeeps(k, h, Suspended(k, h, me));
        RemovalKeepsCovered(k.system, h.slot, Unlisted(k.system, h.slot));
    }
  }
}
