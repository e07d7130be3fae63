/** The task calls of kernel.rs that change the arena, the lists and the cores, each a step of Reaping.dfy. */
module TaskKernels {
  import opened Basics
  import opened Reaping
  import opened ReapingOrder
  import opened TwoCores

  class TaskKernel {
    const smp: SmpKernel
    var slots: seq<Slot>
    var holds: seq<nat>
    var asleep: set<TaskId>
    var pending: set<TaskId>
    var awaits: set<Flag>
    var next: nat
    var waiting: nat
    ghost var deferred: seq<TaskHandle>
    ghost var reaped: seq<TaskHandle>
    ghost var freed: seq<TaskHandle>

    ghost function View(): Kernel
      reads this, smp
    {
      Kernel(smp.View(), slots, holds, asleep, pending, awaits, next, waiting, deferred, reaped, freed)
    }

    /** Two idle tasks, one on each core, as the scheduler starts. */
    constructor (slots: nat, levels: nat)
      requires slots >= 2 && levels > 0
      ensures fresh(smp) && Alive(View()) && Queued(View()) && deferred == reaped == freed == []
      ensures |this.slots| == slots && |smp.lists| == levels
    {
      var lists := seq(levels, l => if l == 0 then [0, 1] else []);
      var vacant := SlotsFrom2(slots);
      smp := new SmpKernel(lists, 0, Core(0, 0, false, false), Core(1, 0, false, false), {0, 1}, vacant);
      this.slots := seq(slots, t => Slot(t < 2, 0, 0));
      holds, asleep, pending, awaits, next, waiting := [0, 0], {}, {}, {}, 0, 0;
      deferred, reaped, freed := [], [], [];
      new;
      StartIsAlive(View());
    }

    method CurrentHandle(core: nat) returns (h: TaskHandle)
      requires Shape(View()) && core < CORES
      ensures h == CurrentOf(View(), core)
    {
      h := TaskHandle(smp.cores[core].task, holds[core]);
    }

    method FindHolder(h: TaskHandle) returns (core: Option<nat>)
      requires Shape(View())
      ensures core == HolderOf(View(), h)
    {
      var c := 0;
      while c < CORES
        invariant 0 <= c <= CORES && forall i :: 0 <= i < c ==> CurrentOf(View(), i) != h
      {
        var current := CurrentHandle(c);
        if current == h {
          return Some(c);
        }
        c := c + 1;
      }
      core := None;
    }

    /** `create`, with what the arena gives: a free slot, or none if it is full. */
    method TaskCreate(level: nat, me: nat, slot: Option<TaskId>) returns (r: Result<TaskHandle>)
      requires Alive(View())
      requires slot.Some? ==> CanStep(View(), Create(slot.value, level, me))
      requires slot.None? ==> forall t :: 0 <= t < |slots| ==> slots[t].live
      modifies this`slots, this`awaits, smp
      ensures Alive(View())
      ensures slot.None? ==> r == Err(OutOfRoom) && View() == old(View())
      ensures slot.Some? ==> View() == AfterStep(old(View()), Create(slot.value, level, me))
      ensures slot.Some? ==> r == Ok(HandleAt(old(View()), slot.value))
    {
      match slot {
        case None => r := Err(OutOfRoom);
        case Some(t) =>
          StepKeepsAlive(View(), Create(t, level, me));
          r := Ok(TaskHandle(t, slots[t].generation));
          slots := slots[t := slots[t].(live := true, mark := 0)];
          awaits := Silenced(awaits, t);
          smp.vacant := smp.vacant - {t};
          smp.AddTask(t, level);
          smp.DoYieldForTask(me, t, level);
      }
    }

    /** `task_delete`. */
    method TaskDelete(h: TaskHandle, me: nat) returns (r: Result<bool>)
      requires Alive(View()) && CanStep(View(), Delete(h, me))
      modifies this, smp
      ensures Alive(View()) && View() == AfterStep(old(View()), Delete(h, me))
      ensures r == if Resolves(old(View()), h) then Ok(true) else Err(Error.Gone)
    {
      hide Sound, IdleReady, LiveOk, Unlisted, YieldCore;
      StepKeepsAlive(View(), Delete(h, me));
      if h.slot >= |slots| || !slots[h.slot].live || slots[h.slot].generation != h.generation {
        return Err(Error.Gone);
      }
      smp.Unlist(h.slot);
      asleep, pending := asleep - {h.slot}, pending - {h.slot};
      var holder := FindHolder(h);
      if holder.Some? {
        MarkTcb(h);
        smp.DoYieldCore(me, holder.value);
      } else {
        DeleteTcb(h);
      }
      r := Ok(true);
    }

    method MarkTcb(h: TaskHandle)
      requires h.slot < |slots|
      modifies this`slots, this`next, this`waiting, this`deferred
      ensures View() == PutOff(old(View()), h)
    {
      next := NextMark(next);
      slots := slots[h.slot := slots[h.slot].(mark := next)];
      waiting := (waiting + 1) % COUNT;
      deferred := deferred + [h];
    }

    method DeleteTcb(h: TaskHandle)
      requires h.slot < |slots|
      modifies this`slots, this`freed, smp`vacant
      ensures View() == Freed(old(View()), h)
    {
      smp.vacant := smp.vacant + {h.slot};
      slots := slots[h.slot := Slot(false, slots[h.slot].generation + 1, 0)];
      freed := freed + [h];
    }

    /** `suspend`. */
    method TaskSuspend(h: TaskHandle, me: nat) returns (r: Result<bool>)
      requires Alive(View()) && CanStep(View(), Suspend(h, me))
      modifies this`asleep, this`pending, this`awaits, smp
      ensures Alive(View()) && View() == AfterStep(old(View()), Suspend(h, me))
      ensures r == if Resolves(old(View()), h) then Ok(true) else Err(Error.Gone)
    {
      hide IdleReady, LiveOk, Listed, CoreOk, Unlisted, YieldCore, RemoveReady;
      StepKeepsAlive(View(), Suspend(h, me));
      if h.slot >= |slots| || !slots[h.slot].live || slots[h.slot].generation != h.generation {
        return Err(Error.Gone);
      }
      var holder := FindHolder(h);
      if holder.Some? { UnlistedBlocked(smp.View(), holder.value, me); }
      smp.Unlist(h.slot);
      asleep, pending := asleep + {h.slot}, pending - {h.slot};
      awaits := Silenced(awaits, h.slot);
      if holder.Some? && !smp.cores[holder.value].requested {
        smp.DoYieldCore(me, holder.value);
      }
      r := Ok(true);
    }

    /** `notify_wait` and `notify_take`, up to where the caller, which is what the core runs, is put to sleep. */
    method NotifyAwait(core: nat, index: nat)
      requires Alive(View()) && core < CORES
      modifies this`awaits
      ensures Alive(View()) && View() == AfterStep(old(View()), Await(core, index))
    {
      StepKeepsAlive(View(), Await(core, index));
      awaits := awaits + {Flag(smp.cores[core].task, index)};
    }

    /** And where it calls in again. */
    method NotifyAnswer(core: nat, index: nat)
      requires Alive(View()) && core < CORES
      modifies this`awaits
      ensures Alive(View()) && View() == AfterStep(old(View()), Answer(core, index))
    {
      StepKeepsAlive(View(), Answer(core, index));
      awaits := awaits - {Flag(smp.cores[core].task, index)};
    }

    /** `notify_locked`, of a task at this level; the answer is whether the caller's core owes a switch now. */
    method TaskNotify(h: TaskHandle, index: nat, level: nat, me: nat, fromIsr: bool) returns (r: Result<bool>)
      requires Alive(View())
      requires CanStep(View(), Notify(h, index, level, me, fromIsr && smp.suspendedDepth != 0))
      modifies this`asleep, this`pending, this`awaits, smp
      ensures Alive(View())
      ensures View() == AfterStep(old(View()), Notify(h, index, level, me, fromIsr && old(smp.suspendedDepth) != 0))
      ensures r == if !Resolves(old(View()), h) then Err(Error.Gone)
        else Ok(Flag(h.slot, index) in old(awaits) && me < |smp.cores| && smp.cores[me].pending)
    {
      hide IdleReady, LiveOk, Listed, CoreOk, YieldForTask;
      var held := fromIsr && smp.suspendedDepth != 0;
      StepKeepsAlive(View(), Notify(h, index, level, me, held));
      if h.slot >= |slots| || !slots[h.slot].live || slots[h.slot].generation != h.generation {
        return Err(Error.Gone);
      }
      if Flag(h.slot, index) !in awaits {
        return Ok(false);
      }
      awaits := awaits - {Flag(h.slot, index)};
      if held {
        pending := pending + {h.slot};
      } else {
        UnlistedPlaced(smp.View(), h.slot, level);
        smp.Unlist(h.slot);
        asleep := asleep - {h.slot};
        smp.AddTask(h.slot, level);
      }
      smp.DoYieldForTask(me, h.slot, level);
      r := Ok(smp.cores[me].pending);
    }

    /** A turn of `drain_pending_ready_walk`. */
    method ReadyPending(task: TaskId, level: nat)
      requires Alive(View()) && CanStep(View(), Schedule(Placed(task, level)))
      modifies this`asleep, this`pending, smp
      ensures Alive(View()) && View() == AfterStep(old(View()), Schedule(Placed(task, level)))
    {
      hide IdleReady, LiveOk, Listed, CoreOk;
      StepKeepsAlive(View(), Schedule(Placed(task, level)));
      UnlistedPlaced(smp.View(), task, level);
      smp.Unlist(task);
      pending, asleep := pending - {task}, asleep - {task};
      smp.AddTask(task, level);
    }

    /** `reap_head`: a walk over the arena for the least mark. */
    method FindHead() returns (head: Option<TaskId>)
      ensures head == ReapHead(slots, |slots|)
    {
      head := None;
      var i := 0;
      while i < |slots|
        invariant 0 <= i <= |slots| && head == ReapHead(slots, i)
      {
        if slots[i].live && slots[i].mark != 0 && (head.None? || slots[i].mark < slots[head.value].mark) {
          head := Some(i);
        }
        i := i + 1;
      }
    }

    /** `reap_waiting_tasks`: oldest first, and a pass ends at the first task a core still holds. */
    method ReapWaitingTasks()
      requires Alive(View())
      modifies this`slots, this`waiting, this`freed, this`reaped, smp`vacant
      ensures Alive(View()) && View() == AfterStep(old(View()), Reap)
    {
      hide Sound, IdleReady, LiveOk, ReapHead;
      StepKeepsAlive(View(), Reap);
      while waiting > 0
        invariant Shape(View()) && Reaped(View()) == Reaped(old(View()))
        decreases waiting
      {
        var head := FindHead();
        if head.None? {
          waiting := 0;
          return;
        }
        var h := TaskHandle(head.value, slots[head.value].generation);
        var holder := FindHolder(h);
        if holder.Some? {
          return;
        }
        waiting := waiting - 1;
        reaped := reaped + [h];
        DeleteTcb(h);
      }
    }

    /** `switch_context` with the scheduler running: the core takes a handle by its slot. */
    method SwitchContext(core: nat) returns (stalled: bool)
      requires Alive(View()) && CanStep(View(), Schedule(Switched(core))) && smp.suspendedDepth == 0
      modifies this`holds, smp
      ensures Alive(View()) && View() == AfterStep(old(View()), Schedule(Switched(core))) && !stalled
    {
      hide IdleReady, LiveOk, Listed, Switch;
      StepKeepsAlive(View(), Schedule(Switched(core)));
      IdleMeansNoStall(smp.View(), core);
      assert CoreOk(smp.View(), smp.cores[0]) && CoreOk(smp.View(), smp.cores[1]);
      var was := smp.cores[core].task;
      assert holds[core := holds[core]] == holds;
      stalled := smp.SwitchContext(core);
      assert smp.View() == After(old(smp.View()), Switched(core));
      var now := smp.cores[core].task;
      if now != was && now < |slots| {
        holds := holds[core := slots[now].generation];
      }
    }
  }

  function SlotsFrom2(n: nat): (slots: set<TaskId>)
    ensures forall t :: t in slots <==> 2 <= t < n
  {
    if n <= 2 then {} else SlotsFrom2(n - 1) + {n - 1}
  }

  lemma StartIsAlive(k: Kernel)
    requires |k.slots| >= 2 && forall t :: 0 <= t < |k.slots| ==> k.slots[t] == Slot(t < 2, 0, 0)
    requires k.system.lists != [] && forall l :: 0 <= l < |k.system.lists| ==> k.system.lists[l] == if l == 0 then [0, 1] else []
    requires k.system.cores == [Core(0, 0, false, false), Core(1, 0, false, false)] && k.system.top == 0 && k.system.idle == {0, 1}
    requires forall t :: t in k.system.vacant <==> 2 <= t < |k.slots|
    requires k.holds == [0, 0] && k.asleep == k.pending == {} && k.next == 0 && k.waiting == 0 && k.deferred == k.reaped == k.freed == []
    ensures Alive(k) && Queued(k)
  {
    var s := k.system;
    assert forall t, l :: Ready(s, t, l) <==> l == 0 && (t == 0 || t == 1);
    assert Sound(s) && IdleReady(s) by {
      assert 0 in s.idle && 1 in s.idle;
      assert Listed(s.lists) && CoreOk(s, s.cores[0]) && CoreOk(s, s.cores[1]);
    }
    hide Sound, IdleReady;
    assert forall t :: IsReady(s, t) <==> t == 0 || t == 1 by { assert Ready(s, 0, 0) && Ready(s, 1, 0); }
  }
}
