/** When a deleted task becomes ready and runs again, over any history: a core held it at its deletion, so it
    is not freed at once, and nothing but the reaping looks at its mark. */
module Revival {
  import opened Basics
  import opened Reaping
  import opened TwoCores

  /** A deletion makes its handle one of a deleted task, which is on no list; what it waited to be notified of
      it still waits for. */
  lemma DeleteDeletes(k: Kernel, h: TaskHandle, me: nat)
    requires Alive(k) && CanStep(k, Delete(h, me)) && Resolves(k, h)
    ensures var m := Deleted(k, h, me); Shape(m) && WasDeleted(m, h) && OnNoList(m, h) && m.awaits == k.awaits
  {
    hide Sound, IdleReady, IsReady, Unlisted, After;
    match HolderOf(k, h)
    case Some(core) => DeferredKeeps(k, h, core, me);
    case None =>
      RemovalKeeps(k, h, Parted(k, h.slot));
      FreedKeeps(Parted(k, h.slot), h);
      StepMoves(Parted(k, h.slot).system, Vacated(h.slot));
  }

  // ------------------------------------- when a deleted task runs again --

  /** Not ready, asleep or pending. */
  ghost predicate OnNoList(k: Kernel, h: TaskHandle) {
    h.slot !in k.asleep && h.slot !in k.pending && !IsReady(k.system, h.slot)
  }

  /** It blocks on the core that holds it, or is suspended. */
  predicate PutsToSleep(k: Kernel, step: Step, h: TaskHandle)
    requires Shape(k)
  {
    Resolves(k, h) && match step
      case Suspend(g, _) => g == h
      case Schedule(Blocked(core, _)) => core < CORES && CurrentOf(k, core) == h
      case Schedule(Removed(task, _)) => task == h.slot
      case _ => false
  }

  /** A wake-up or a notification of it is held back. */
  predicate HoldsBack(k: Kernel, step: Step, h: TaskHandle) {
    Resolves(k, h) && match step
      case Schedule(Sought(task, _, _)) => task == h.slot
      case Notify(_, _, _, _, held) => held && Notices(k, step, h)
      case _ => false
  }

  /** Something readies it: an event, time or a resumption, the end of the scheduler's suspension, a
      notification. */
  predicate Wakes(k: Kernel, step: Step, h: TaskHandle) {
    Resolves(k, h) && match step
      case Schedule(Readied(task, _, _)) => task == h.slot
      case Schedule(Placed(task, _)) => task == h.slot
      case Notify(_, _, _, _, held) => !held && Notices(k, step, h)
      case _ => false
  }

  /** A switch of a core that does not hold it takes it. */
  predicate Picks(k: Kernel, step: Step, h: TaskHandle, core: nat)
    requires Shape(k) && core < CORES
  {
    && Resolves(k, h) && step == Schedule(Switched(core)) && CurrentOf(k, core) != h
    && After(k.system, Switched(core)).cores[core].task == h.slot
  }

  predicate Deletes(step: Step, h: TaskHandle) {
    match step
    case Delete(g, _) => g == h
    case _ => false
  }

  predicate Suspends(step: Step, h: TaskHandle) {
    match step
    case Suspend(g, _) => g == h
    case _ => false
  }

  /** Its event item leaves the pending-ready list. */
  predicate Releases(step: Step, h: TaskHandle) {
    Suspends(step, h) || Deletes(step, h) || match step
      case Schedule(Readied(task, _, _)) => task == h.slot
      case Schedule(Placed(task, _)) => task == h.slot
      case _ => false
  }

  /** It begins to wait for a notification, and its state ceases to be Waiting. */
  predicate Awaits(k: Kernel, step: Step, h: TaskHandle, index: nat)
    requires Shape(k)
  {
    match step
    case Await(core, i) => core < CORES && CurrentOf(k, core) == h && i == index
    case _ => false
  }

  predicate Silences(k: Kernel, step: Step, h: TaskHandle, index: nat)
    requires Shape(k)
  {
    match step
    case Suspend(g, _) => g == h
    case Answer(core, i) => core < CORES && CurrentOf(k, core) == h && i == index
    case Notify(g, i, _, _, _) => g == h && i == index
    case _ => false
  }

  /** Where a deleted task is after a step: asleep, pending, waiting for a notification, ready, held by a
      core. */
  ghost predicate Moved(k: Kernel, step: Step, h: TaskHandle, m: Kernel)
    requires Shape(k) && Shape(m)
  {
    && WasDeleted(m, h) && (Resolves(m, h) ==> Resolves(k, h) && Listing(k, step, h, m) && Waiting(k, step, h, m))
    && (Wakes(k, step, h) ==> Resolves(m, h))
    && (forall c :: 0 <= c < CORES && CurrentOf(k, c) != h ==> (CurrentOf(m, c) == h <==> Picks(k, step, h, c)))
    && (forall c :: 0 <= c < CORES && Picks(k, step, h, c) ==> IsReady(k.system, h.slot))
  }

  ghost predicate Listing(k: Kernel, step: Step, h: TaskHandle, m: Kernel)
    requires Shape(k)
  {
    && (h.slot in m.asleep <==> PutsToSleep(k, step, h) || (h.slot in k.asleep && !Wakes(k, step, h) && !Deletes(step, h)))
    && (h.slot in m.pending <==> HoldsBack(k, step, h) || (h.slot in k.pending && !Releases(step, h)))
    && (IsReady(m.system, h.slot) <==>
        Wakes(k, step, h) || (IsReady(k.system, h.slot) && !PutsToSleep(k, step, h) && !Deletes(step, h)))
  }

  ghost predicate Waiting(k: Kernel, step: Step, h: TaskHandle, m: Kernel)
    requires Shape(k)
  {
    forall i :: Flag(h.slot, i) in m.awaits <==>
      Awaits(k, step, h, i) || (Flag(h.slot, i) in k.awaits && !Silences(k, step, h, i))
  }

  lemma ScheduleMoves(k: Kernel, e: Event, h: TaskHandle)
    requires Alive(k) && CanStep(k, Schedule(e)) && WasDeleted(k, h)
    ensures Moved(k, Schedule(e), h, Scheduled(k, e))
  {
    hide Sound, IdleReady, IsReady, After, Distinct, Listing, Waiting;
    assert Resolves(k, CurrentOf(k, 0)) && Resolves(k, CurrentOf(k, 1));
    StepMoves(k.system, e);
    if Resolves(k, h) { ScheduleLists(k, e, h); }
  }

  lemma ScheduleLists(k: Kernel, e: Event, h: TaskHandle)
    requires Alive(k) && CanStep(k, Schedule(e)) && Resolves(k, h)
    ensures Listing(k, Schedule(e), h, Scheduled(k, e)) && Waiting(k, Schedule(e), h, Scheduled(k, e))
  {
    hide Sound, IdleReady, IsReady, After, Distinct;
    assert Resolves(k, CurrentOf(k, 0)) && Resolves(k, CurrentOf(k, 1));
    StepMoves(k.system, e);
  }

  lemma CreateMoves(k: Kernel, slot: TaskId, level: nat, me: nat, h: TaskHandle)
    requires Alive(k) && CanStep(k, Create(slot, level, me)) && WasDeleted(k, h)
    ensures Moved(k, Create(slot, level, me), h, Created(k, slot, level, me))
  {
    hide Sound, IdleReady, IsReady, After, Distinct;
    assert Resolves(k, CurrentOf(k, 0)) && Resolves(k, CurrentOf(k, 1));
    FreeSlotIsUnused(k, slot, level, me);
    StepMoves(Occupied(k, slot), Readied(slot, level, me));
  }

  lemma DeleteMoves(k: Kernel, g: TaskHandle, me: nat, h: TaskHandle)
    requires Alive(k) && CanStep(k, Delete(g, me)) && WasDeleted(k, h)
    ensures Moved(k, Delete(g, me), h, Deleted(k, g, me))
  {
    hide Sound, IdleReady, IsReady, After, Unlisted, Distinct;
    assert Resolves(k, CurrentOf(k, 0)) && Resolves(k, CurrentOf(k, 1));
    if Resolves(k, g) {
      match HolderOf(k, g)
      case Some(core) =>
        DeferredKeeps(k, g, core, me);
        var half := After(k.system, Blocked(core, me));
        StepKeepsSound(k.system, Blocked(core, me));
        StepMoves(k.system, Blocked(core, me));
        StepMoves(half, Asked(core, me));
      case None =>
        RemovalKeeps(k, g, Parted(k, g.slot));
        FreedKeeps(Parted(k, g.slot), g);
        StepMoves(Parted(k, g.slot).system, Vacated(g.slot));
    }
  }

  lemma SuspendMoves(k: Kernel, g: TaskHandle, me: nat, h: TaskHandle)
    requires Alive(k) && CanStep(k, Suspend(g, me)) && WasDeleted(k, h)
    ensures Moved(k, Suspend(g, me), h, Suspended(k, g, me))
  {
    hide Sound, IdleReady, IsReady, After, Unlisted, Distinct;
    assert Resolves(k, CurrentOf(k, 0)) && Resolves(k, CurrentOf(k, 1));
    SuspendKeeps(k, g, me);
    if Resolves(k, g) {
      match HolderOf(k, g)
      case Some(core) => StepMoves(k.system, Blocked(core, me));
      case None => RemovalKeeps(k, g, Suspended(k, g, me));
    }
  }

  lemma ReapMoves(k: Kernel, h: TaskHandle)
    requires Alive(k) && WasDeleted(k, h)
    ensures Shape(Reaped(k)) && Moved(k, Reap, h, Reaped(k))
  {
    hide Sound, IdleReady, After, Reaped, Distinct;
    ReapSteps(k, h);
    ReapKeeps(k);
    var m := Reaped(k);
    if Resolves(m, h) {
      assert h.slot !in m.system.vacant && h.slot !in k.system.vacant;
      assert forall l :: Ready(m.system, h.slot, l) <==> Ready(k.system, h.slot, l);
    }
  }

  lemma WaitMoves(k: Kernel, core: nat, index: nat, h: TaskHandle)
    requires Alive(k) && core < CORES && WasDeleted(k, h)
    ensures Moved(k, Await(core, index), h, Awaited(k, core, index))
    ensures Moved(k, Answer(core, index), h, Answered(k, core, index))
  {
    hide Sound, IdleReady, IsReady, After, Distinct;
    assert Resolves(k, CurrentOf(k, 0)) && Resolves(k, CurrentOf(k, 1));
  }

  lemma NotifyMoves(k: Kernel, g: TaskHandle, index: nat, level: nat, me: nat, held: bool, h: TaskHandle)
    requires Alive(k) && CanStep(k, Notify(g, index, level, me, held)) && WasDeleted(k, h)
    ensures Moved(k, Notify(g, index, level, me, held), h, Notified(k, g, index, level, me, held))
  {
    hide Sound, IdleReady, IsReady, After, Distinct;
    assert Resolves(k, CurrentOf(k, 0)) && Resolves(k, CurrentOf(k, 1));
    if Resolves(k, g) && Flag(g.slot, index) in k.awaits {
      if held { HoldingBackKeeps(k, g, level, me); } else { NoticeKeeps(k, g, level, me); }
    }
  }

  /** Exactly how a deleted task moves, which is as any task does. */
  lemma DeletedMoves(k: Kernel, step: Step, h: TaskHandle)
    requires Alive(k) && CanStep(k, step) && WasDeleted(k, h)
    ensures Shape(AfterStep(k, step)) && Moved(k, step, h, AfterStep(k, step))
  {
    hide Sound, IdleReady, LiveOk, IsReady, Moved, Created, Deleted, Suspended, Reaped, Notified, Scheduled;
    StepKeepsAlive(k, step);
    match step
    case Create(slot, level, me) => CreateMoves(k, slot, level, me, h);
    case Delete(g, me) => DeleteMoves(k, g, me, h);
    case Suspend(g, me) => SuspendMoves(k, g, me, h);
    case Reap => ReapMoves(k, h);
    case Await(core, index) => WaitMoves(k, core, index, h);
    case Answer(core, index) => WaitMoves(k, core, index, h);
    case Notify(g, index, level, me, held) => NotifyMoves(k, g, index, level, me, held, h);
    case Schedule(e) => ScheduleMoves(k, e, h);
  }

  /** What can bring a task back that is on no list: it is put to sleep, or a notification finds it waiting. */
  predicate Stirs(k: Kernel, step: Step, h: TaskHandle)
    requires Shape(k)
  {
    PutsToSleep(k, step, h) || Notices(k, step, h)
  }

  lemma StirredFirst(k: Kernel, step: Step, h: TaskHandle)
    requires Alive(k) && CanStep(k, step) && WasDeleted(k, h) && OnNoList(k, h) && !Stirs(k, step, h)
    ensures var m := AfterStep(k, step); !Wakes(k, step, h) && (Resolves(m, h) ==> OnNoList(m, h))
  {
    hide Sound, IdleReady, LiveOk, IsReady, AfterStep;
    DeletedMoves(k, step, h);
  }

  lemma NotWokenIsNotReady(k: Kernel, step: Step, h: TaskHandle)
    requires Alive(k) && CanStep(k, step) && WasDeleted(k, h) && !IsReady(k.system, h.slot)
    ensures var m := AfterStep(k, step); Resolves(m, h) && IsReady(m.system, h.slot) <==> Wakes(k, step, h)
  {
    hide Sound, IdleReady, LiveOk, IsReady, AfterStep, CanStep, WasDeleted;
    DeletedMoves(k, step, h);
  }

  /** In some step of the history it becomes ready. */
  ghost predicate ReadyAgain(k: Kernel, steps: seq<Step>, h: TaskHandle)
    requires Alive(k) && CanHappen(k, steps)
    decreases |steps|
  {
    steps != []
    && (StepKeepsAlive(k, steps[0]);
        var m := AfterStep(k, steps[0]);
        (!IsReady(k.system, h.slot) && Resolves(m, h) && IsReady(m.system, h.slot)) || ReadyAgain(m, steps[1..], h))
  }

  /** In some step this core comes to hold it. */
  ghost predicate HeldAgain(k: Kernel, steps: seq<Step>, h: TaskHandle, core: nat)
    requires Alive(k) && CanHappen(k, steps) && core < CORES
    decreases |steps|
  {
    steps != []
    && (StepKeepsAlive(k, steps[0]);
        var m := AfterStep(k, steps[0]);
        (CurrentOf(k, core) != h && CurrentOf(m, core) == h) || HeldAgain(m, steps[1..], h, core))
  }

  /** In some step something readies it. */
  ghost predicate WokenIn(k: Kernel, steps: seq<Step>, h: TaskHandle)
    requires Alive(k) && CanHappen(k, steps)
    decreases |steps|
  {
    steps != []
    && (Wakes(k, steps[0], h) || (StepKeepsAlive(k, steps[0]); WokenIn(AfterStep(k, steps[0]), steps[1..], h)))
  }

  /** In some step it is put to sleep or a notification finds it waiting, and in that or a later one something
      readies it, and its handle resolves in both. */
  ghost predicate StirredThen(k: Kernel, steps: seq<Step>, h: TaskHandle)
    requires Alive(k) && CanHappen(k, steps)
    decreases |steps|
  {
    steps != []
    && ((Stirs(k, steps[0], h) && WokenIn(k, steps, h))
        || (StepKeepsAlive(k, steps[0]); StirredThen(AfterStep(k, steps[0]), steps[1..], h)))
  }

  /** In some step a switch of this core picks it. */
  ghost predicate PickedThen(k: Kernel, steps: seq<Step>, h: TaskHandle, core: nat)
    requires Alive(k) && CanHappen(k, steps) && core < CORES
    decreases |steps|
  {
    steps != []
    && (Picks(k, steps[0], h, core) || (StepKeepsAlive(k, steps[0]); PickedThen(AfterStep(k, steps[0]), steps[1..], h, core)))
  }

  /** Something readies it in some step, and a later one picks it. */
  ghost predicate WokenThen(k: Kernel, steps: seq<Step>, h: TaskHandle, core: nat)
    requires Alive(k) && CanHappen(k, steps) && core < CORES
    decreases |steps|
  {
    steps != []
    && (StepKeepsAlive(k, steps[0]);
        var m := AfterStep(k, steps[0]);
        (Wakes(k, steps[0], h) && PickedThen(m, steps[1..], h, core)) || WokenThen(m, steps[1..], h, core))
  }

  /** It is stirred in some step, readied in that or a later one, and picked in one after that. */
  ghost predicate RevivedThen(k: Kernel, steps: seq<Step>, h: TaskHandle, core: nat)
    requires Alive(k) && CanHappen(k, steps) && core < CORES
    decreases |steps|
  {
    steps != []
    && ((Stirs(k, steps[0], h) && WokenThen(k, steps, h, core))
        || (StepKeepsAlive(k, steps[0]); RevivedThen(AfterStep(k, steps[0]), steps[1..], h, core)))
  }

  /** Once freed it is neither readied nor picked. */
  lemma {:induction false} FreedIsLeft(k: Kernel, steps: seq<Step>, h: TaskHandle)
    requires Alive(k) && CanHappen(k, steps) && WasDeleted(k, h) && !Resolves(k, h)
    ensures !ReadyAgain(k, steps, h) && !WokenIn(k, steps, h)
    ensures forall core :: 0 <= core < CORES ==> !PickedThen(k, steps, h, core)
    decreases |steps|
  {
    hide AfterStep, Sound, IdleReady, LiveOk, WasDeleted, CanStep, IsReady, Stirs;
    if steps != [] {
      StepKeepsAlive(k, steps[0]);
      DeletedMoves(k, steps[0], h);
      FreedIsLeft(AfterStep(k, steps[0]), steps[1..], h);
    }
  }

  lemma {:induction false} WokenIsReady(k: Kernel, steps: seq<Step>, h: TaskHandle)
    requires Alive(k) && CanHappen(k, steps) && WasDeleted(k, h) && !IsReady(k.system, h.slot)
    ensures ReadyAgain(k, steps, h) <==> WokenIn(k, steps, h)
    decreases |steps|
  {
    hide AfterStep, Sound, IdleReady, LiveOk, WasDeleted, CanStep, IsReady, Wakes, Resolves, Moved;
    if steps != [] {
      StepKeepsAlive(k, steps[0]);
      var m := AfterStep(k, steps[0]);
      NotWokenIsNotReady(k, steps[0], h);
      StillDeleted(k, steps[0], h);
      if !Resolves(m, h) {
        FreedIsLeft(m, steps[1..], h);
      } else if !Wakes(k, steps[0], h) {
        WokenIsReady(m, steps[1..], h);
      }
    }
  }

  lemma StillDeleted(k: Kernel, step: Step, h: TaskHandle)
    requires Alive(k) && CanStep(k, step) && WasDeleted(k, h)
    ensures Shape(AfterStep(k, step)) && WasDeleted(AfterStep(k, step), h)
  {
    hide AfterStep, Sound, IdleReady, LiveOk, CanStep, WasDeleted;
    DeletedMoves(k, step, h);
  }

  lemma {:induction false} StirredIsWoken(k: Kernel, steps: seq<Step>, h: TaskHandle)
    requires Alive(k) && CanHappen(k, steps) && StirredThen(k, steps, h)
    ensures WokenIn(k, steps, h)
    decreases |steps|
  {
    hide AfterStep, Sound, IdleReady, LiveOk, CanStep, Wakes, Stirs;
    StepKeepsAlive(k, steps[0]);
    if !(Stirs(k, steps[0], h) && WokenIn(k, steps, h)) { StirredIsWoken(AfterStep(k, steps[0]), steps[1..], h); }
  }

  lemma {:induction false} WokenIsStirred(k: Kernel, steps: seq<Step>, h: TaskHandle)
    requires Alive(k) && CanHappen(k, steps) && WasDeleted(k, h) && OnNoList(k, h) && WokenIn(k, steps, h)
    ensures StirredThen(k, steps, h)
    decreases |steps|
  {
    hide AfterStep, Sound, IdleReady, LiveOk, CanStep, Wakes, Stirs, WasDeleted, OnNoList, Resolves;
    StepKeepsAlive(k, steps[0]);
    var m := AfterStep(k, steps[0]);
    if !Stirs(k, steps[0], h) {
      StirredFirst(k, steps[0], h);
      StillDeleted(k, steps[0], h);
      if Resolves(m, h) { WokenIsStirred(m, steps[1..], h); } else { FreedIsLeft(m, steps[1..], h); }
    }
  }

  /** When a deleted task becomes ready again: from its deletion, which leaves it on no list, exactly if it is
      put to sleep or a notification finds it waiting, and something readies it then, all before it is
      freed. */
  lemma ReadyAgainExactlyIf(k: Kernel, steps: seq<Step>, h: TaskHandle)
    requires Alive(k) && CanHappen(k, steps) && WasDeleted(k, h) && OnNoList(k, h)
    ensures ReadyAgain(k, steps, h) <==> StirredThen(k, steps, h)
  {
    hide Alive, CanHappen, ReadyAgain, WokenIn, StirredThen, WasDeleted;
    WokenIsReady(k, steps, h);
    if WokenIn(k, steps, h) { WokenIsStirred(k, steps, h); }
    if StirredThen(k, steps, h) { StirredIsWoken(k, steps, h); }
  }

  lemma {:induction false} PickedIsHeld(k: Kernel, steps: seq<Step>, h: TaskHandle, core: nat)
    requires Alive(k) && CanHappen(k, steps) && core < CORES && WasDeleted(k, h)
    ensures PickedThen(k, steps, h, core) <==> HeldAgain(k, steps, h, core)
    decreases |steps|
  {
    hide AfterStep, Sound, IdleReady, LiveOk, WasDeleted, CanStep, Picks, IsReady, Wakes, Listing, Waiting;
    if steps != [] {
      StepKeepsAlive(k, steps[0]);
      DeletedMoves(k, steps[0], h);
      PickedIsHeld(AfterStep(k, steps[0]), steps[1..], h, core);
      if CurrentOf(k, core) == h { NotPickedTwice(k, steps[0], h, core); }
    }
  }

  lemma NotPickedTwice(k: Kernel, step: Step, h: TaskHandle, core: nat)
    requires Shape(k) && core < CORES && CurrentOf(k, core) == h
    ensures !Picks(k, step, h, core)
  {
  }

  lemma {:induction false} LaterIsEnough(k: Kernel, steps: seq<Step>, h: TaskHandle, core: nat)
    requires Alive(k) && CanHappen(k, steps) && core < CORES
    ensures WokenThen(k, steps, h, core) ==> PickedThen(k, steps, h, core)
    ensures RevivedThen(k, steps, h, core) ==> WokenThen(k, steps, h, core)
    decreases |steps|
  {
    hide AfterStep, Sound, IdleReady, LiveOk, CanStep, Picks, Wakes, Stirs;
    if steps != [] {
      StepKeepsAlive(k, steps[0]);
      LaterIsEnough(AfterStep(k, steps[0]), steps[1..], h, core);
    }
  }

  lemma PickedIsReady(k: Kernel, step: Step, h: TaskHandle, core: nat)
    requires Alive(k) && CanStep(k, step) && WasDeleted(k, h) && core < CORES && !IsReady(k.system, h.slot)
    ensures !Picks(k, step, h, core)
  {
    hide AfterStep, Sound, IdleReady, LiveOk, CanStep, WasDeleted, IsReady, Picks, Listing, Waiting;
    DeletedMoves(k, step, h);
  }

  lemma {:induction false} WokenFirst(k: Kernel, steps: seq<Step>, h: TaskHandle, core: nat)
    requires Alive(k) && CanHappen(k, steps) && core < CORES && WasDeleted(k, h) && !IsReady(k.system, h.slot)
    requires PickedThen(k, steps, h, core)
    ensures WokenThen(k, steps, h, core)
    decreases |steps|
  {
    hide AfterStep, Sound, IdleReady, LiveOk, WasDeleted, CanStep, IsReady, Picks, Wakes, Resolves;
    StepKeepsAlive(k, steps[0]);
    PickedIsReady(k, steps[0], h, core);
    NotWokenIsNotReady(k, steps[0], h);
    StillDeleted(k, steps[0], h);
    var m := AfterStep(k, steps[0]);
    if !Resolves(m, h) {
      FreedIsLeft(m, steps[1..], h);
    } else if !Wakes(k, steps[0], h) {
      WokenFirst(m, steps[1..], h, core);
    }
  }

  lemma {:induction false} RevivedFirst(k: Kernel, steps: seq<Step>, h: TaskHandle, core: nat)
    requires Alive(k) && CanHappen(k, steps) && core < CORES && WasDeleted(k, h) && OnNoList(k, h)
    requires WokenThen(k, steps, h, core)
    ensures RevivedThen(k, steps, h, core)
    decreases |steps|
  {
    hide AfterStep, Sound, IdleReady, LiveOk, WasDeleted, CanStep, OnNoList, Wakes, Stirs, Resolves;
    StepKeepsAlive(k, steps[0]);
    var m := AfterStep(k, steps[0]);
    if !Stirs(k, steps[0], h) {
      StirredFirst(k, steps[0], h);
      StillDeleted(k, steps[0], h);
      if Resolves(m, h) {
        RevivedFirst(m, steps[1..], h, core);
      } else {
        FreedIsLeft(m, steps[1..], h);
        LaterIsEnough(m, steps[1..], h, core);
      }
    }
  }

  /** When a deleted task runs again: a core comes to hold it exactly if it is readied again in that way, and a
      switch of that core picks it then, all before it is freed. */
  lemma DeletedRunsAgainExactlyIf(k: Kernel, steps: seq<Step>, h: TaskHandle, core: nat)
    requires Alive(k) && CanHappen(k, steps) && core < CORES && WasDeleted(k, h) && OnNoList(k, h)
    ensures HeldAgain(k, steps, h, core) <==> RevivedThen(k, steps, h, core)
  {
    hide Alive, CanHappen, HeldAgain, PickedThen, WokenThen, RevivedThen, WasDeleted;
    PickedIsHeld(k, steps, h, core);
    LaterIsEnough(k, steps, h, core);
    if PickedThen(k, steps, h, core) {
      WokenFirst(k, steps, h, core);
      RevivedFirst(k, steps, h, core);
    }
  }

  /** In no step is it put to sleep, and no notification finds it waiting. */
  ghost predicate LeftAlone(k: Kernel, steps: seq<Step>, h: TaskHandle)
    requires Alive(k) && CanHappen(k, steps)
    decreases |steps|
  {
    steps == []
    || (!Stirs(k, steps[0], h) && (StepKeepsAlive(k, steps[0]); LeftAlone(AfterStep(k, steps[0]), steps[1..], h)))
  }

  lemma {:induction false} LeftAloneIsNotStirred(k: Kernel, steps: seq<Step>, h: TaskHandle, core: nat)
    requires Alive(k) && CanHappen(k, steps) && core < CORES && LeftAlone(k, steps, h)
    ensures !StirredThen(k, steps, h) && !RevivedThen(k, steps, h, core)
    decreases |steps|
  {
    hide AfterStep, Sound, IdleReady, LiveOk, CanStep, Stirs;
    if steps != [] {
      StepKeepsAlive(k, steps[0]);
      LeftAloneIsNotStirred(AfterStep(k, steps[0]), steps[1..], h, core);
    }
  }

  lemma {:induction false} NotHeldAtTheEnd(k: Kernel, steps: seq<Step>, h: TaskHandle, core: nat)
    requires Alive(k) && CanHappen(k, steps) && core < CORES && CurrentOf(k, core) != h && !HeldAgain(k, steps, h, core)
    ensures Shape(History(k, steps)) && CurrentOf(History(k, steps), core) != h
    decreases |steps|
  {
    hide AfterStep, Sound, IdleReady, LiveOk, CanStep;
    if steps != [] {
      StepKeepsAlive(k, steps[0]);
      NotHeldAtTheEnd(AfterStep(k, steps[0]), steps[1..], h, core);
    }
  }

  /** So one that nobody puts to sleep after its deletion, and no notification finds waiting, is never ready or
      picked again. */
  lemma NeverPickedAgain(k: Kernel, steps: seq<Step>, h: TaskHandle, core: nat)
    requires Alive(k) && CanHappen(k, steps) && core < CORES && LeftAlone(k, steps, h)
    requires WasDeleted(k, h) && OnNoList(k, h)
    ensures !ReadyAgain(k, steps, h) && !HeldAgain(k, steps, h, core)
    ensures CurrentOf(k, core) != h ==> Shape(History(k, steps)) && CurrentOf(History(k, steps), core) != h
  {
    hide Sound, IdleReady, LiveOk, CanHappen, ReadyAgain, HeldAgain, RevivedThen, StirredThen, LeftAlone, WasDeleted, History;
    LeftAloneIsNotStirred(k, steps, h, core);
    ReadyAgainExactlyIf(k, steps, h);
    DeletedRunsAgainExactlyIf(k, steps, h, core);
    if CurrentOf(k, core) != h { NotHeldAtTheEnd(k, steps, h, core); }
  }

  /** In no step does it begin to wait for a notification, or block, and nobody suspends it. */
  ghost predicate Inert(k: Kernel, steps: seq<Step>, h: TaskHandle)
    requires Alive(k) && CanHappen(k, steps)
    decreases |steps|
  {
    steps == []
    || (!PutsToSleep(k, steps[0], h) && (forall i :: !Awaits(k, steps[0], h, i))
        && (StepKeepsAlive(k, steps[0]); Inert(AfterStep(k, steps[0]), steps[1..], h)))
  }

  ghost predicate Silent(k: Kernel, h: TaskHandle) { forall i :: Flag(h.slot, i) !in k.awaits }

  /** And if it waited for no notification when it was deleted, it takes a wait, a sleep or a suspension of its
      own to stir it: notifications alone never do. */
  lemma {:induction false} SilentIsLeftAlone(k: Kernel, steps: seq<Step>, h: TaskHandle)
    requires Alive(k) && CanHappen(k, steps) && WasDeleted(k, h) && Silent(k, h) && Inert(k, steps, h)
    ensures LeftAlone(k, steps, h)
    decreases |steps|
  {
    hide AfterStep, Sound, IdleReady, LiveOk, CanStep, WasDeleted, PutsToSleep, Awaits, Listing, IsReady;
    if steps != [] {
      StepKeepsAlive(k, steps[0]);
      DeletedMoves(k, steps[0], h);
      var m := AfterStep(k, steps[0]);
      if Resolves(m, h) { SilentIsLeftAlone(m, steps[1..], h); } else { FreedIsNotStirred(m, steps[1..], h); }
    }
  }

  lemma {:induction false} FreedIsNotStirred(k: Kernel, steps: seq<Step>, h: TaskHandle)
    requires Alive(k) && CanHappen(k, steps) && WasDeleted(k, h) && !Resolves(k, h)
    ensures LeftAlone(k, steps, h)
    decreases |steps|
  {
    hide AfterStep, Sound, IdleReady, LiveOk, CanStep, WasDeleted, Listing, Waiting, IsReady;
    if steps != [] {
      StepKeepsAlive(k, steps[0]);
      DeletedMoves(k, steps[0], h);
      FreedIsNotStirred(AfterStep(k, steps[0]), steps[1..], h);
    }
  }

  // ------------------------------------------- deleted tasks that run on --

  /** One of the steps deletes a task, and after the last this core, which did not hold it, does. */
  ghost predicate ComesBack(k: Kernel, steps: seq<Step>, at: nat, h: TaskHandle, core: nat) {
    && Alive(k) && CanHappen(k, steps) && core < CORES && Resolves(k, h) && CurrentOf(k, core) != h
    && at < |steps| && Deletes(steps[at], h)
    && var m := History(k, steps); Shape(m) && Resolves(m, h) && WasDeleted(m, h) && CurrentOf(m, core) == h
  }

  function Settle(lists: seq<seq<TaskId>>, top: nat, first: Core, second: Core): System {
    System(lists, top, [first, second], {2, 3}, {1})
  }

  function Marks(first: nat): seq<Slot> {
    [Slot(true, 0, first), Slot(false, 0, 0), Slot(true, 0, 0), Slot(true, 0, 0)]
  }

  /** Core 0 runs task 0, core 1 an idle task; slot 1 is free. */
  function Running(awaits: set<Flag>): Kernel {
    Kernel(Settle([[2, 3], [0]], 1, Core(0, 1, false, false), Core(2, 0, false, false)), Marks(0), [0, 0], {}, {}, awaits,
      0, 0, [], [], [])
  }

  function Delayed(awaits: set<Flag>): Kernel {
    Kernel(Settle([[2, 3], []], 1, Core(0, 1, true, false), Core(2, 0, false, false)), Marks(0), [0, 0], {0}, {}, awaits,
      0, 0, [], [], [])
  }

  function Asked0(pending: bool, asleep: set<TaskId>, awaits: set<Flag>): Kernel {
    Kernel(Settle([[2, 3], []], 1, Core(0, 1, pending, true), Core(2, 0, false, false)), Marks(1), [0, 0], asleep, {}, awaits,
      1, 1, [TaskHandle(0, 0)], [], [])
  }

  function LetGo(asleep: set<TaskId>, awaits: set<Flag>): Kernel {
    Kernel(Settle([[2, 3], []], 0, Core(3, 0, false, false), Core(2, 0, false, false)), Marks(1), [0, 0], asleep, {}, awaits,
      1, 1, [TaskHandle(0, 0)], [], [])
  }

  function Woken(): Kernel {
    Kernel(Settle([[2, 3], [0]], 1, Core(3, 0, false, false), Core(2, 0, true, false)), Marks(1), [0, 0], {}, {}, {},
      1, 1, [TaskHandle(0, 0)], [], [])
  }

  function Back(): Kernel {
    Kernel(Settle([[3, 2], [0]], 1, Core(3, 0, false, false), Core(0, 1, false, false)), Marks(1), [0, 0], {}, {}, {},
      1, 1, [TaskHandle(0, 0)], [], [])
  }

  lemma RunningReady(t: TaskId, l: int)
    ensures Ready(Running({}).system, t, l) <==> (l == 0 && (t == 2 || t == 3)) || (l == 1 && t == 0)
  {
  }

  lemma RunningIsSound()
    ensures Sound(Running({}).system) && IdleReady(Running({}).system)
  {
    var s := Running({}).system;
    forall t, l ensures Ready(s, t, l) <==> (l == 0 && (t == 2 || t == 3)) || (l == 1 && t == 0) {
      RunningReady(t, l);
    }
    assert Listed(s.lists) by {
      assert forall l :: 0 <= l < 2 ==> Distinct(s.lists[l]);
      assert forall t, l :: 0 <= l < 2 && t in s.lists[l] ==> Ready(s, t, l);
    }
    hide Listed;
    assert s.cores == [Core(0, 1, false, false), Core(2, 0, false, false)] && s.idle == {2, 3} && s.top == 1 && s.vacant == {1};
    hide Running, Ready;
    assert 2 in s.idle && 3 in s.idle;
    assert CoreOk(s, s.cores[0]) && CoreOk(s, s.cores[1]);
  }

  lemma RunningIsAlive()
    ensures Alive(Running({}))
  {
    hide Sound, IdleReady;
    var k := Running({});
    RunningIsSound();
    forall t ensures IsReady(k.system, t) <==> t == 0 || t == 2 || t == 3 {
      assert Ready(k.system, 0, 1) && Ready(k.system, 2, 0) && Ready(k.system, 3, 0);
      if l: int :| Ready(k.system, t, l) { RunningReady(t, l); }
    }
  }

  lemma RunningDeleted()
    ensures AfterStep(Running({}), Delete(TaskHandle(0, 0), 1)) == Asked0(false, {}, {})
  {
    var k, h := Running({}), TaskHandle(0, 0);
    assert CurrentOf(k, 0) == h && Resolves(k, h) && HolderOf(k, h) == Some(0);
    assert LevelOf([[2, 3], [0]], 0) == Some(1) && Without([0], 0) == [0][1..] == [];
    assert Unlisted(k.system, 0).lists == [[2, 3], []];
    assert YieldCore(Unlisted(k.system, 0), 1, 0) == Asked0(false, {}, {}).system;
    assert k.slots[0 := k.slots[0].(mark := 1)] == Marks(1);
  }

  lemma RunningWaits()
    ensures AfterStep(Running({}), Await(0, 0)) == Running({Flag(0, 0)})
    ensures AfterStep(Running({Flag(0, 0)}), Schedule(Blocked(0, 0))) == Delayed({Flag(0, 0)})
  {
    var k := Running({Flag(0, 0)});
    assert Running({}).awaits + {Flag(0, 0)} == {Flag(0, 0)};
    assert Without([0], 0) == [0][1..] == [];
    assert RemoveReady(k.system, 0, 1).lists == [[2, 3], []];
  }

  lemma LevelOfNone()
    ensures LevelOf([[2, 3], []], 0) == None
  {
    assert [[2, 3], []][..1] == [[2, 3]] && [[2, 3]][..0] == [];
  }

  lemma DelayedDeleted()
    ensures AfterStep(Delayed({Flag(0, 0)}), Delete(TaskHandle(0, 0), 1)) == Asked0(true, {}, {Flag(0, 0)})
  {
    var k, h := Delayed({Flag(0, 0)}), TaskHandle(0, 0);
    assert CurrentOf(k, 0) == h && Resolves(k, h) && HolderOf(k, h) == Some(0);
    LevelOfNone();
    assert YieldCore(k.system, 1, 0) == Asked0(true, {}, {}).system;
    assert k.slots[0 := k.slots[0].(mark := 1)] == Marks(1);
  }

  lemma AskedBlocks()
    ensures AfterStep(Asked0(false, {}, {}), Schedule(Blocked(0, 0))) == Asked0(false, {0}, {})
  {
    var k := Asked0(false, {}, {});
    assert Without([], 0) == [];
    assert RemoveReady(k.system, 0, 1).lists == k.system.lists;
  }

  lemma AskedLetsGo(pending: bool, asleep: set<TaskId>, awaits: set<Flag>)
    ensures AfterStep(Asked0(pending, asleep, awaits), Schedule(Switched(0))) == LetGo(asleep, awaits)
  {
    var s := Asked0(pending, asleep, awaits).system;
    assert Rotated(s, 0) == s.lists;
    assert FirstNot([], Skipped(s, 0)) == None;
    assert FirstNot([3], Skipped(s, 0)) == Some(3) && [2, 3][1..] == [3];
    assert FirstNot([2, 3], Skipped(s, 0)) == Some(3);
    assert Pick(s.lists, 0, Skipped(s, 0)) == Some((0, 3)) && Pick(s.lists, 1, Skipped(s, 0)) == Some((0, 3));
    assert TopAfter(s.lists, 0) == 0 && TopAfter(s.lists, 1) == 0;
    assert Switch(s, 0).0 == LetGo(asleep, awaits).system;
    assert [0, 0][0 := 0] == [0, 0];
  }

  lemma LetGoSuspended()
    ensures AfterStep(LetGo({}, {}), Suspend(TaskHandle(0, 0), 1)) == LetGo({0}, {})
  {
    var k, h := LetGo({}, {}), TaskHandle(0, 0);
    assert Resolves(k, h) && HolderOf(k, h) == None;
    LevelOfNone();
  }

  lemma ReadiedFromNowhere(asleep: set<TaskId>, awaits: set<Flag>)
    ensures After(LetGo(asleep, awaits).system, Readied(0, 1, 1)) == Woken().system
  {
    var s := LetGo(asleep, awaits).system;
    var r := AddReady(s, 0, 1);
    assert [[2, 3], []][1] + [0] == [0];
    assert r.lists == [[2, 3], [0]] && r.top == 1;
    assert Scan(r, 1, 0) == (0, None) && Scan(r, 1, 1) == (-1, Some(0)) && Scan(r, 1, 2) == (-1, Some(1));
    assert !RunsUnasked(r, 0);
    assert YieldCore(r, 1, 1) == Woken().system;
  }

  lemma SleeperWoken()
    ensures AfterStep(LetGo({0}, {}), Schedule(Readied(0, 1, 1))) == Woken()
  {
    hide After;
    ReadiedFromNowhere({0}, {});
  }

  lemma WaiterNotified()
    requires Alive(LetGo({}, {Flag(0, 0)}))
    ensures CanStep(LetGo({}, {Flag(0, 0)}), Notify(TaskHandle(0, 0), 0, 1, 1, false))
    ensures AfterStep(LetGo({}, {Flag(0, 0)}), Notify(TaskHandle(0, 0), 0, 1, 1, false)) == Woken()
  {
    hide After, Sound, IdleReady, LiveOk;
    var k, h := LetGo({}, {Flag(0, 0)}), TaskHandle(0, 0);
    assert Resolves(k, h) && Flag(0, 0) in k.awaits;
    NotOnAList({}, {Flag(0, 0)});
    assert Possible(k.system, Readied(0, 1, 1));
    ReadiedIsPlaced(k.system, 0, 1, 1);
    ReadiedFromNowhere({}, {Flag(0, 0)});
    assert k.awaits - {Flag(0, 0)} == {};
  }

  lemma WokenPicked()
    ensures AfterStep(Woken(), Schedule(Switched(1))) == Back()
  {
    var s := Woken().system;
    assert Without([2, 3], 2) == [2, 3][1..] == [3] && MoveToEnd([2, 3], 2) == [3, 2];
    assert Rotated(s, 1) == [[3, 2], [0]];
    assert FirstNot([0], Skipped(s, 1)) == Some(0) && Pick([[3, 2], [0]], 1, Skipped(s, 1)) == Some((1, 0));
    assert Switch(s, 1).0 == Back().system;
    assert [0, 0][1 := 0] == [0, 0];
  }

  lemma HappenOne(k: Kernel, step: Step, steps: seq<Step>)
    requires Alive(k) && CanStep(k, step) && Alive(AfterStep(k, step)) && CanHappen(AfterStep(k, step), steps)
    ensures CanHappen(k, [step] + steps) && History(k, [step] + steps) == History(AfterStep(k, step), steps)
  {
    assert ([step] + steps)[1..] == steps;
  }

  lemma NotOnAList(asleep: set<TaskId>, awaits: set<Flag>)
    ensures forall l :: !Ready(LetGo(asleep, awaits).system, 0, l)
  {
  }

  lemma WokenComesBack()
    requires Alive(Woken())
    ensures CanHappen(Woken(), [Schedule(Switched(1))]) && History(Woken(), [Schedule(Switched(1))]) == Back()
  {
    hide AfterStep, Sound, IdleReady, LiveOk;
    WokenPicked();
    StepKeepsAlive(Woken(), Schedule(Switched(1)));
    HappenOne(Woken(), Schedule(Switched(1)), []);
    assert [Schedule(Switched(1))] + [] == [Schedule(Switched(1))];
  }

  /** What the first two runs below share. */
  lemma SleeperComesBack()
    requires Alive(LetGo({0}, {}))
    ensures var steps := [Schedule(Readied(0, 1, 1)), Schedule(Switched(1))];
      CanHappen(LetGo({0}, {}), steps) && History(LetGo({0}, {}), steps) == Back()
  {
    hide AfterStep, Sound, IdleReady, LiveOk;
    var wake, pick := Schedule(Readied(0, 1, 1)), Schedule(Switched(1));
    SleeperWoken();
    assert CanStep(LetGo({0}, {}), wake) by { NotOnAList({0}, {}); }
    StepKeepsAlive(LetGo({0}, {}), wake);
    WokenComesBack();
    HappenOne(LetGo({0}, {}), wake, [pick]);
    assert [wake] + [pick] == [wake, pick];
  }

  lemma BackIsBack()
    ensures var m, h := Back(), TaskHandle(0, 0); Shape(m) && Resolves(m, h) && WasDeleted(m, h) && CurrentOf(m, 1) == h
  {
  }

  lemma BlockerComesBack()
    requires Alive(Asked0(false, {}, {}))
    ensures var k, steps := Asked0(false, {}, {}),
      [Schedule(Blocked(0, 0)), Schedule(Switched(0)), Schedule(Readied(0, 1, 1)), Schedule(Switched(1))];
      CanHappen(k, steps) && History(k, steps) == Back()
  {
    hide AfterStep, Sound, IdleReady, LiveOk;
    var block, make := Schedule(Blocked(0, 0)), Schedule(Switched(0));
    var rest := [Schedule(Readied(0, 1, 1)), Schedule(Switched(1))];
    AskedBlocks();
    AskedLetsGo(false, {0}, {});
    StepKeepsAlive(Asked0(false, {}, {}), block);
    StepKeepsAlive(Asked0(false, {0}, {}), make);
    SleeperComesBack();
    HappenOne(Asked0(false, {0}, {}), make, rest);
    HappenOne(Asked0(false, {}, {}), block, [make] + rest);
    assert [block] + ([make] + rest) == [block, make] + rest;
  }

  /** A task deleted from the other core goes to sleep before its core makes way, is woken, and runs on. */
  lemma DeletedTaskSleepsAndRuns()
    ensures ComesBack(Running({}), [Delete(TaskHandle(0, 0), 1), Schedule(Blocked(0, 0)), Schedule(Switched(0)),
      Schedule(Readied(0, 1, 1)), Schedule(Switched(1))], 0, TaskHandle(0, 0), 1)
  {
    hide AfterStep, Sound, IdleReady, LiveOk;
    var delete := Delete(TaskHandle(0, 0), 1);
    var rest := [Schedule(Blocked(0, 0)), Schedule(Switched(0)), Schedule(Readied(0, 1, 1)), Schedule(Switched(1))];
    RunningIsAlive();
    RunningDeleted();
    StepKeepsAlive(Running({}), delete);
    BlockerComesBack();
    HappenOne(Running({}), delete, rest);
    assert [delete] + rest == [delete, rest[0], rest[1], rest[2], rest[3]];
    BackIsBack();
  }

  /** And one that its core has let go is suspended by its handle, resumed, and runs on. */
  lemma DeletedTaskResumesAndRuns()
    ensures ComesBack(Running({}), [Delete(TaskHandle(0, 0), 1), Schedule(Switched(0)), Suspend(TaskHandle(0, 0), 1),
      Schedule(Readied(0, 1, 1)), Schedule(Switched(1))], 0, TaskHandle(0, 0), 1)
  {
    hide AfterStep, Sound, IdleReady, LiveOk;
    var h := TaskHandle(0, 0);
    var delete, make, suspend := Delete(h, 1), Schedule(Switched(0)), Suspend(h, 1);
    var wake, pick := Schedule(Readied(0, 1, 1)), Schedule(Switched(1));
    RunningIsAlive();
    RunningDeleted();
    AskedLetsGo(false, {}, {});
    LetGoSuspended();
    StepKeepsAlive(Running({}), delete);
    StepKeepsAlive(Asked0(false, {}, {}), make);
    StepKeepsAlive(LetGo({}, {}), suspend);
    SleeperComesBack();
    HappenOne(LetGo({}, {}), suspend, [wake, pick]);
    HappenOne(Asked0(false, {}, {}), make, [suspend, wake, pick]);
    HappenOne(Running({}), delete, [make, suspend, wake, pick]);
    assert [suspend] + [wake, pick] == [suspend, wake, pick] && [make] + [suspend, wake, pick] == [make, suspend, wake, pick];
    assert [delete] + [make, suspend, wake, pick] == [delete, make, suspend, wake, pick];
  }

  lemma WaiterComesBack()
    requires Alive(Asked0(true, {}, {Flag(0, 0)}))
    ensures var k, steps := Asked0(true, {}, {Flag(0, 0)}),
      [Schedule(Switched(0)), Notify(TaskHandle(0, 0), 0, 1, 1, false), Schedule(Switched(1))];
      CanHappen(k, steps) && History(k, steps) == Back()
  {
    hide AfterStep, Sound, IdleReady, LiveOk;
    var f, make, pick := {Flag(0, 0)}, Schedule(Switched(0)), Schedule(Switched(1));
    var notify := Notify(TaskHandle(0, 0), 0, 1, 1, false);
    AskedLetsGo(true, {}, f);
    StepKeepsAlive(Asked0(true, {}, f), make);
    WaiterNotified();
    StepKeepsAlive(LetGo({}, f), notify);
    WokenComesBack();
    HappenOne(LetGo({}, f), notify, [pick]);
    HappenOne(Asked0(true, {}, f), make, [notify, pick]);
    assert [notify] + [pick] == [notify, pick] && [make] + [notify, pick] == [make, notify, pick];
  }

  lemma DelayedComesBack()
    requires Alive(Delayed({Flag(0, 0)}))
    ensures var k, steps := Delayed({Flag(0, 0)}), [Delete(TaskHandle(0, 0), 1), Schedule(Switched(0)),
      Notify(TaskHandle(0, 0), 0, 1, 1, false), Schedule(Switched(1))];
      CanHappen(k, steps) && History(k, steps) == Back()
  {
    hide AfterStep, Sound, IdleReady, LiveOk;
    var delete := Delete(TaskHandle(0, 0), 1);
    var rest := [Schedule(Switched(0)), Notify(TaskHandle(0, 0), 0, 1, 1, false), Schedule(Switched(1))];
    DelayedDeleted();
    StepKeepsAlive(Delayed({Flag(0, 0)}), delete);
    WaiterComesBack();
    HappenOne(Delayed({Flag(0, 0)}), delete, rest);
    assert [delete] + rest == [delete, rest[0], rest[1], rest[2]];
  }

  lemma FlaggedComesBack()
    requires Alive(Running({Flag(0, 0)}))
    ensures var k, steps := Running({Flag(0, 0)}), [Schedule(Blocked(0, 0)), Delete(TaskHandle(0, 0), 1),
      Schedule(Switched(0)), Notify(TaskHandle(0, 0), 0, 1, 1, false), Schedule(Switched(1))];
      CanHappen(k, steps) && History(k, steps) == Back()
  {
    hide AfterStep, Sound, IdleReady, LiveOk;
    var h, block := TaskHandle(0, 0), Schedule(Blocked(0, 0));
    var rest := [Delete(h, 1), Schedule(Switched(0)), Notify(h, 0, 1, 1, false), Schedule(Switched(1))];
    RunningWaits();
    StepKeepsAlive(Running({Flag(0, 0)}), block);
    DelayedComesBack();
    HappenOne(Running({Flag(0, 0)}), block, rest);
    assert [block] + rest == [block, rest[0], rest[1], rest[2], rest[3]];
  }

  /** And one that was deleted while it waited for a notification, on a core that had not made way yet, is put
      to sleep and suspended by nobody since; it is notified, and runs on. */
  lemma DeletedTaskIsNotifiedAndRuns()
    ensures ComesBack(Running({}), [Await(0, 0), Schedule(Blocked(0, 0)), Delete(TaskHandle(0, 0), 1), Schedule(Switched(0)),
      Notify(TaskHandle(0, 0), 0, 1, 1, false), Schedule(Switched(1))], 2, TaskHandle(0, 0), 1)
  {
    hide AfterStep, Sound, IdleReady, LiveOk;
    var h, wait, block := TaskHandle(0, 0), Await(0, 0), Schedule(Blocked(0, 0));
    var rest := [block, Delete(h, 1), Schedule(Switched(0)), Notify(h, 0, 1, 1, false), Schedule(Switched(1))];
    RunningIsAlive();
    RunningWaits();
    StepKeepsAlive(Running({}), wait);
    FlaggedComesBack();
    HappenOne(Running({}), wait, rest);
    assert [wait] + rest == [wait, rest[0], rest[1], rest[2], rest[3], rest[4]];
    BackIsBack();
  }
}
