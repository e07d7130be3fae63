/** The order in which the idle task frees deleted tasks, and where that order ends. */
module ReapingOrder {
  import opened Basics
  import opened Reaping
  import opened TwoCores

  // ------------------------------------------------------- oldest first --

  /** The marked tasks, oldest first. */
  ghost predicate InLine(k: Kernel, line: seq<TaskHandle>) {
    && k.next < WRAP && k.waiting == |line| < COUNT
    && (forall i :: 0 <= i < |line| ==> Resolves(k, line[i]) && 0 < k.slots[line[i].slot].mark <= k.next)
    && (forall i, j :: 0 <= i < j < |line| ==> k.slots[line[i].slot].mark < k.slots[line[j].slot].mark)
    && AllMarkedIn(k, line)
  }

  ghost predicate AllMarkedIn(k: Kernel, line: seq<TaskHandle>) {
    forall t :: 0 <= t < |k.slots| && k.slots[t].mark != 0 ==> HandleAt(k, t) in line
  }

  /** The deletions put off that the idle task has not caught up with. */
  function LineOf(k: Kernel): seq<TaskHandle> {
    if |k.reaped| <= |k.deferred| then k.deferred[|k.reaped|..] else []
  }

  /** The idle task has freed the first of the deletions put off, and the others wait in their order. */
  ghost predicate Queued(k: Kernel) { k.reaped <= k.deferred && InLine(k, LineOf(k)) }

  /** A deletion that does not disturb the line: the task was not deleted before, and if it has to wait,
      then neither the mark wraps while somebody waits nor the count. */
  predicate Orderly(k: Kernel, step: Step)
    requires Shape(k)
  {
    match step
    case Delete(h, _) =>
      Resolves(k, h) ==>
        && k.slots[h.slot].mark == 0
        && (HolderOf(k, h).Some? ==> (LineOf(k) == [] || k.next + 1 < WRAP) && k.waiting + 1 < COUNT)
    case _ => true
  }

  lemma DeferKeepsLine(k: Kernel, h: TaskHandle, core: nat, me: nat)
    requires Alive(k) && Queued(k) && core < CORES && CurrentOf(k, core) == h && Resolves(k, h)
    ensures Queued(Deferred(k, h, core, me)) <==>
      k.slots[h.slot].mark == 0 && (LineOf(k) == [] || k.next + 1 < WRAP) && k.waiting + 1 < COUNT
  {
    hide Sound, IdleReady, IsReady, LiveOk, Unlisted, YieldCore;
    var m, line := Deferred(k, h, core, me), LineOf(k);
    LineGrows(k.deferred, k.reaped, h);
    assert LineOf(m) == line + [h] && m.reaped <= m.deferred;
    hide LineOf, Deferred;
    assert m.slots == k.slots[h.slot := k.slots[h.slot].(mark := NextMark(k.next))] && m.next == NextMark(k.next);
    assert m.waiting == (k.waiting + 1) % COUNT;
    if k.slots[h.slot].mark == 0 && (line == [] || k.next + 1 < WRAP) && k.waiting + 1 < COUNT {
      JoinsLine(k, m, line, h);
    } else {
      BreaksLine(k, m, line, h);
    }
  }

  lemma LineGrows(deferred: seq<TaskHandle>, reaped: seq<TaskHandle>, h: TaskHandle)
    requires reaped <= deferred
    ensures reaped <= deferred + [h] && (deferred + [h])[|reaped|..] == deferred[|reaped|..] + [h]
  {
  }

  ghost predicate Marked(k: Kernel, m: Kernel, h: TaskHandle) {
    && Resolves(k, h) && m.next == NextMark(k.next) && m.waiting == (k.waiting + 1) % COUNT
    && m.slots == k.slots[h.slot := k.slots[h.slot].(mark := NextMark(k.next))]
  }

  lemma JoinsLine(k: Kernel, m: Kernel, line: seq<TaskHandle>, h: TaskHandle)
    requires InLine(k, line) && Marked(k, m, h)
    requires k.slots[h.slot].mark == 0 && (line == [] || k.next + 1 < WRAP) && k.waiting + 1 < COUNT
    ensures InLine(m, line + [h])
  {
    hide AllMarkedIn, Resolves;
    MarkedIsLast(k, m, line, h);
    OthersKeepMarks(k, m, line, h);
    NewMark(k, m, h);
    var now := line + [h];
    assert now[|line|] == h && forall i :: 0 <= i < |line| ==> now[i] == line[i];
  }

  lemma NewMark(k: Kernel, m: Kernel, h: TaskHandle)
    requires Marked(k, m, h)
    ensures Resolves(m, h) && h.slot < |m.slots| && m.slots[h.slot].mark == NextMark(k.next)
  {
  }

  lemma OthersKeepMarks(k: Kernel, m: Kernel, line: seq<TaskHandle>, h: TaskHandle)
    requires InLine(k, line) && Marked(k, m, h) && k.slots[h.slot].mark == 0
    ensures forall i :: 0 <= i < |line| ==>
      Resolves(m, line[i]) && line[i].slot < |k.slots| == |m.slots| && m.slots[line[i].slot].mark == k.slots[line[i].slot].mark
  {
    hide AllMarkedIn;
    forall i | 0 <= i < |line|
      ensures Resolves(m, line[i]) && line[i].slot < |k.slots| && m.slots[line[i].slot] == k.slots[line[i].slot]
    {
      assert Resolves(k, line[i]) && k.slots[line[i].slot].mark > 0;
    }
  }

  lemma MarkedIsLast(k: Kernel, m: Kernel, line: seq<TaskHandle>, h: TaskHandle)
    requires AllMarkedIn(k, line) && Marked(k, m, h)
    ensures AllMarkedIn(m, line + [h])
  {
    forall t | 0 <= t < |m.slots| && m.slots[t].mark != 0 ensures HandleAt(m, t) in line + [h] {
      assert t != h.slot ==> HandleAt(k, t) in line;
      assert t == h.slot ==> HandleAt(m, t) == h;
    }
  }

  lemma BreaksLine(k: Kernel, m: Kernel, line: seq<TaskHandle>, h: TaskHandle)
    requires InLine(k, line) && Marked(k, m, h)
    requires k.slots[h.slot].mark != 0 || (line != [] && k.next + 1 == WRAP) || k.waiting + 1 >= COUNT
    ensures !InLine(m, line + [h])
  {
    hide AllMarkedIn;
    var now := line + [h];
    assert now[|line|] == h && forall i :: 0 <= i < |line| ==> now[i] == line[i];
    if k.slots[h.slot].mark != 0 {
      MarkedIsIn(k, line, h);
      var i :| 0 <= i < |line| && line[i] == h;
      assert now[i] == now[|line|];
    } else if line != [] && k.next + 1 == WRAP {
      assert m.slots[now[|line|].slot].mark == 1;
      assert now[0].slot != h.slot && m.slots[now[0].slot].mark > 0;
    }
  }

  lemma MarkedIsIn(k: Kernel, line: seq<TaskHandle>, h: TaskHandle)
    requires AllMarkedIn(k, line) && Resolves(k, h) && k.slots[h.slot].mark != 0
    ensures h in line
  {
    assert HandleAt(k, h.slot) == h;
  }

  lemma FreeKeepsLine(k: Kernel, m: Kernel, h: TaskHandle)
    requires Queued(k) && Resolves(k, h)
    requires m.slots == Freed(k, h).slots && m.next == k.next && m.waiting == k.waiting
    requires m.deferred == k.deferred && m.reaped == k.reaped
    ensures Queued(m) <==> k.slots[h.slot].mark == 0
  {
    hide AllMarkedIn;
    var line := LineOf(k);
    if k.slots[h.slot].mark == 0 {
      forall i | 0 <= i < |line| ensures line[i].slot != h.slot && Resolves(m, line[i]) {
        assert Resolves(k, line[i]);
      }
      StillAllMarked(k, m, line, h);
    } else {
      MarkedIsIn(k, line, h);
      var i :| 0 <= i < |line| && line[i] == h;
      assert !Resolves(m, line[i]);
    }
  }

  lemma StillAllMarked(k: Kernel, m: Kernel, line: seq<TaskHandle>, h: TaskHandle)
    requires AllMarkedIn(k, line) && Resolves(k, h) && m.slots == Freed(k, h).slots
    requires k.slots[h.slot].mark == 0
    ensures AllMarkedIn(m, line)
  {
    forall t | 0 <= t < |m.slots| && m.slots[t].mark != 0 ensures HandleAt(m, t) in line {
      assert HandleAt(k, t) in line && HandleAt(m, t) == HandleAt(k, t);
    }
  }

  lemma HeadIsFirst(k: Kernel, line: seq<TaskHandle>)
    requires InLine(k, line) && forall t :: 0 <= t < |k.slots| && k.slots[t].mark != 0 ==> k.slots[t].live
    ensures ReapHead(k.slots, |k.slots|) == if line == [] then None else Some(line[0].slot)
  {
    var head := ReapHead(k.slots, |k.slots|);
    hide ReapHead;
    if line != [] { assert Resolves(k, line[0]) && k.slots[line[0].slot].mark != 0; }
    if head.Some? {
      var h := HandleAt(k, head.value);
      var i :| 0 <= i < |line| && line[i] == h;
      assert i == 0;
    }
  }

  lemma LineShrinks(deferred: seq<TaskHandle>, reaped: seq<TaskHandle>, h: TaskHandle)
    requires reaped <= deferred && |reaped| < |deferred| && deferred[|reaped|] == h
    ensures reaped + [h] <= deferred && deferred[|reaped + [h]|..] == deferred[|reaped|..][1..]
  {
  }

  lemma ReapOneKeepsLine(k: Kernel)
    requires Queued(k) && k.waiting > 0
    ensures LineOf(k) != [] && Resolves(k, LineOf(k)[0])
    ensures var m := ReapOne(k, LineOf(k)[0].slot); Queued(m) && LineOf(m) == LineOf(k)[1..]
  {
    var line := LineOf(k);
    assert Resolves(k, line[0]) && HandleAt(k, line[0].slot) == line[0];
    var m := ReapOne(k, line[0].slot);
    LineShrinks(k.deferred, k.reaped, line[0]);
    hide InLine;
    assert LineOf(m) == line[1..] && m.reaped <= m.deferred;
    hide LineOf;
    FirstLeaves(k, m, line);
  }

  lemma FirstLeaves(k: Kernel, m: Kernel, line: seq<TaskHandle>)
    requires InLine(k, line) && line != [] && m.next == k.next && m.waiting == k.waiting - 1
    requires line[0].slot < |k.slots| == |m.slots| && m.slots == k.slots[line[0].slot := m.slots[line[0].slot]]
    requires m.slots[line[0].slot].mark == 0
    ensures InLine(m, line[1..])
  {
    var h, rest := line[0], line[1..];
    assert Resolves(k, h);
    forall i | 0 <= i < |rest| ensures rest[i].slot != h.slot && Resolves(k, rest[i]) && rest[i] == line[i + 1] {
      assert k.slots[line[0].slot].mark < k.slots[line[i + 1].slot].mark;
    }
    forall t | 0 <= t < |m.slots| && m.slots[t].mark != 0 ensures HandleAt(m, t) in rest {
      assert HandleAt(k, t) in line && HandleAt(k, t) != h;
      var i :| 0 <= i < |line| && line[i] == HandleAt(k, t);
      assert rest[i - 1] == line[i];
    }
  }

  /** A pass of the idle task frees from the front of the line, and ends at the first task that a core
      holds. */
  lemma {:induction false} ReapsFromTheFront(k: Kernel)
    requires Alive(k) && Queued(k)
    ensures var m := Reaped(k);
      && Queued(m) && Shape(m) && m.deferred == k.deferred && k.reaped <= m.reaped && k.freed <= m.freed
      && m.freed[|k.freed|..] == m.reaped[|k.reaped|..]
      && (LineOf(m) == [] || HolderOf(m, LineOf(m)[0]).Some?)
    decreases k.waiting
  {
    hide Sound, IdleReady, LiveOk, InLine, ReapHead;
    assert k.freed[|k.freed|..] == [] && k.reaped[|k.reaped|..] == [];
    if k.waiting == 0 {
      EmptyLine(k);
    } else {
      ReapOneKeepsLine(k);
      HeadOfLine(k);
      var h := LineOf(k)[0];
      if HolderOf(k, h).None? {
        ReapOneKeeps(k, h.slot);
        var n := ReapOne(k, h.slot);
        ReapsFromTheFront(n);
        Tails(k.freed, Reaped(n).freed, h);
        Tails(k.reaped, Reaped(n).reaped, h);
      }
    }
  }

  lemma Tails(before: seq<TaskHandle>, after: seq<TaskHandle>, h: TaskHandle)
    requires before + [h] <= after
    ensures before <= after && after[|before|..] == [h] + after[|before + [h]|..]
  {
  }

  lemma EmptyLine(k: Kernel)
    requires Queued(k) && k.waiting == 0
    ensures LineOf(k) == []
  {
  }

  lemma HeadOfLine(k: Kernel)
    requires Alive(k) && Queued(k) && k.waiting > 0
    ensures LineOf(k) != [] && Resolves(k, LineOf(k)[0]) && HandleAt(k, LineOf(k)[0].slot) == LineOf(k)[0]
    ensures k.slots[LineOf(k)[0].slot].mark != 0 && LineOf(k)[0].slot !in k.system.idle
    ensures ReapHead(k.slots, |k.slots|) == Some(LineOf(k)[0].slot)
  {
    hide Sound, IdleReady, ReapHead;
    HeadIsFirst(k, LineOf(k));
  }

  lemma DeleteKeepsLine(k: Kernel, h: TaskHandle, me: nat)
    requires Alive(k) && Queued(k)
    ensures Queued(Deleted(k, h, me)) <==> Orderly(k, Delete(h, me))
  {
    hide Sound, IdleReady, LiveOk, Unlisted, Queued, Deferred, LineOf;
    if Resolves(k, h) {
      match HolderOf(k, h)
      case Some(core) => DeferKeepsLine(k, h, core, me);
      case None => FreeKeepsLine(k, Deleted(k, h, me), h);
    }
  }

  /** A step keeps the line in order exactly if it is orderly. */
  lemma StepKeepsLine(k: Kernel, step: Step)
    requires Alive(k) && CanStep(k, step) && Queued(k)
    ensures Queued(AfterStep(k, step)) <==> Orderly(k, step)
  {
    hide Sound, IdleReady, IsReady, After, Deleted, Queued, LineOf, Reaped;
    assert forall t :: 0 <= t < |k.slots| && !k.slots[t].live ==> k.slots[t].mark == 0;
    hide LiveOk;
    match step {
      case Create(slot, level, me) => SameLine(k, Created(k, slot, level, me));
      case Delete(h, me) =>
        DeleteKeepsLine(k, h, me);
      case Suspend(h, me) => SameLine(k, Suspended(k, h, me));
      case Reap => ReapsFromTheFront(k);
      case Await(core, index) => SameLine(k, Awaited(k, core, index));
      case Answer(core, index) => SameLine(k, Answered(k, core, index));
      case Notify(h, index, level, me, held) => SameLine(k, Notified(k, h, index, level, me, held));
      case Schedule(e) => SameLine(k, Scheduled(k, e));
    }
  }

  lemma SameLine(k: Kernel, m: Kernel)
    requires Queued(k) && m.next == k.next && m.waiting == k.waiting && m.deferred == k.deferred && m.reaped == k.reaped
    requires |m.slots| == |k.slots| && forall t :: 0 <= t < |k.slots| ==>
      m.slots[t].generation == k.slots[t].generation && m.slots[t].mark == k.slots[t].mark && (k.slots[t].live ==> m.slots[t].live)
    ensures Queued(m)
  {
    var line := LineOf(k);
    assert forall i :: 0 <= i < |line| ==> Resolves(k, line[i]) && Resolves(m, line[i]);
    assert forall t :: 0 <= t < |k.slots| && k.slots[t].mark != 0 ==> HandleAt(k, t) in line && HandleAt(m, t) == HandleAt(k, t);
  }

  ghost predicate AllOrderly(k: Kernel, steps: seq<Step>)
    requires Alive(k) && CanHappen(k, steps)
    decreases |steps|
  {
    steps == [] || (Orderly(k, steps[0]) && (StepKeepsAlive(k, steps[0]); AllOrderly(AfterStep(k, steps[0]), steps[1..])))
  }

  /** Over any orderly history the idle task frees the deletions put off in the order they were made. */
  lemma {:induction false} ReapsOldestFirst(k: Kernel, steps: seq<Step>)
    requires Alive(k) && Queued(k) && CanHappen(k, steps) && AllOrderly(k, steps)
    ensures var m := History(k, steps); Queued(m) && m.reaped <= m.deferred
    decreases |steps|
  {
    hide AfterStep, Sound, IdleReady, LiveOk, CanStep, Orderly, InLine;
    if steps != [] {
      StepKeepsAlive(k, steps[0]);
      StepKeepsLine(k, steps[0]);
      ReapsOldestFirst(AfterStep(k, steps[0]), steps[1..]);
    }
  }

  // ------------------------------------------------- where the order ends --

  /** Core 0 holds task 0, deleted with the highest mark there is; core 1 runs task 1; 2 and 3 are idle. */
  function AtTheWrap(): Kernel {
    Kernel(
      System([[2, 3], [1]], 1, [Core(0, 1, true, false), Core(1, 1, false, false)], {2, 3}, {}),
      [Slot(true, 0, WRAP - 1), Slot(true, 0, 0), Slot(true, 0, 0), Slot(true, 0, 0)],
      [0, 0], {}, {}, {}, WRAP - 1, 1, [TaskHandle(0, 0)], [], [])
  }

  lemma WrapReady(t: TaskId, l: int)
    ensures Ready(AtTheWrap().system, t, l) <==> (l == 0 && (t == 2 || t == 3)) || (l == 1 && t == 1)
  {
  }

  lemma AtTheWrapIsSound()
    ensures Sound(AtTheWrap().system) && IdleReady(AtTheWrap().system)
  {
    var s := AtTheWrap().system;
    forall t, l ensures Ready(s, t, l) <==> (l == 0 && (t == 2 || t == 3)) || (l == 1 && t == 1) {
      WrapReady(t, l);
    }
    assert Listed(s.lists) by {
      assert forall l :: 0 <= l < 2 ==> Distinct(s.lists[l]);
      assert forall t, l :: 0 <= l < 2 && t in s.lists[l] ==> Ready(s, t, l);
    }
    hide Listed;
    assert s.cores == [Core(0, 1, true, false), Core(1, 1, false, false)] && s.idle == {2, 3} && s.top == 1 && s.vacant == {};
    hide AtTheWrap, Ready;
    assert 2 in s.idle && 3 in s.idle;
    assert CoreOk(s, s.cores[0]) && CoreOk(s, s.cores[1]);
  }

  lemma AtTheWrapIsAlive()
    ensures Alive(AtTheWrap()) && Queued(AtTheWrap())
  {
    hide Sound, IdleReady;
    var k := AtTheWrap();
    AtTheWrapIsSound();
    forall t ensures IsReady(k.system, t) <==> t == 1 || t == 2 || t == 3 {
      assert Ready(k.system, 1, 1) && Ready(k.system, 2, 0) && Ready(k.system, 3, 0);
      if l: int :| Ready(k.system, t, l) { WrapReady(t, l); }
    }
    assert HandleAt(k, 0) == LineOf(k)[0];
  }

  lemma WrapMarks()
    ensures var k, h := AtTheWrap(), TaskHandle(1, 0);
      && CurrentOf(k, 1) == h && HolderOf(k, h) == Some(1) && Resolves(k, h)
      && Deferred(k, h, 1, 1).slots == [Slot(true, 0, WRAP - 1), Slot(true, 0, 1), Slot(true, 0, 0), Slot(true, 0, 0)]
      && Deferred(k, h, 1, 1).deferred == [TaskHandle(0, 0), TaskHandle(1, 0)]
      && LineOf(k) == [TaskHandle(0, 0)] && k.next + 1 == WRAP
  {
    hide Unlisted, YieldCore;
  }

  lemma LowerMarkFirst(slots: seq<Slot>)
    requires slots == [Slot(true, 0, WRAP - 1), Slot(true, 0, 1), Slot(true, 0, 0), Slot(true, 0, 0)]
    ensures ReapHead(slots, 4) == Some(1)
  {
    assert ReapHead(slots, 2) == Some(1) && ReapHead(slots, 3) == Some(1);
  }

  /** A deletion at the wrap: task 0 was deleted first, and the idle task looks for task 1 first. */
  lemma WrapReordersTheLine()
    ensures var k, h := AtTheWrap(), TaskHandle(1, 0);
      && Alive(k) && Queued(k) && CanStep(k, Delete(h, 1)) && !Queued(Deleted(k, h, 1))
      && Deleted(k, h, 1).deferred == [TaskHandle(0, 0), h]
      && |Deleted(k, h, 1).slots| == 4 && ReapHead(Deleted(k, h, 1).slots, 4) == Some(1)
  {
    var k, h := AtTheWrap(), TaskHandle(1, 0);
    assert h.slot !in k.system.idle;
    AtTheWrapIsAlive();
    WrapMarks();
    hide Sound, IdleReady, LiveOk, Queued, Deferred, AtTheWrap, LineOf, ReapHead;
    DeleteKeepsLine(k, h, 1);
    LowerMarkFirst(Deleted(k, h, 1).slots);
  }

  /** A task deleted twice, the second time after its core left it, is freed at once; the count then says
      that a task waits and no slot says so, and the next pass makes the count 0. */
  lemma SecondDeletionLosesCount(k: Kernel, h: TaskHandle, me: nat)
    requires Alive(k) && Queued(k) && CanStep(k, Delete(h, me)) && Resolves(k, h)
    requires HolderOf(k, h).None? && LineOf(k) == [h]
    ensures var m := Deleted(k, h, me);
      m.waiting == 1 && (forall t :: 0 <= t < |m.slots| ==> m.slots[t].mark == 0) && Reaped(m) == m.(waiting := 0)
  {
    hide Sound, IdleReady, IsReady, Unlisted;
    var m := Deleted(k, h, me);
    forall t | 0 <= t < |m.slots| ensures m.slots[t].mark == 0 {
      assert k.slots[t].mark != 0 ==> HandleAt(k, t) in LineOf(k);
    }
  }

  /** The idle task frees a deleted task that sleeps all the same, and leaves its item on the list. */
  lemma SleeperIsReaped(k: Kernel, h: TaskHandle)
    requires Alive(k) && Queued(k) && LineOf(k) == [h] && HolderOf(k, h).None?
    ensures var m := Reaped(k); !Resolves(m, h) && m.asleep == k.asleep && m.system.lists == k.system.lists
  {
    hide Sound, IdleReady, InLine, ReapHead;
    ReapKeeps(k);
    HeadInLine(k);
    ReapSteps(k, h);
    assert ReapOne(k, h.slot).waiting == 0;
  }

  lemma HeadInLine(k: Kernel)
    requires Alive(k) && Queued(k) && LineOf(k) != []
    ensures k.waiting == |LineOf(k)| && ReapHead(k.slots, |k.slots|) == Some(LineOf(k)[0].slot)
    ensures WasDeleted(k, LineOf(k)[0]) && Resolves(k, LineOf(k)[0])
  {
    HeadOfLine(k);
  }
}
