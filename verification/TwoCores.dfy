/** The choices of the two-core scheduler in kernel.rs: which core to interrupt for a task that became
    ready, and what a core that switches picks. */
module TwoCores {
  import opened Basics

  const CORES := 2

  /** What a core runs, the cached priority of that, and whether the core owes a switch. */
  datatype Core = Core(task: TaskId, priority: nat, pending: bool, requested: bool) {
    predicate Flagged() { pending || requested }
  }

  /** `lists` are the ready lists, level by level; `idle` the tasks that carry the idle flag; `vacant` the
      slots of the arena that no task lives in, of which a list may still have an item. */
  datatype System = System(lists: seq<seq<TaskId>>, top: nat, cores: seq<Core>, idle: set<TaskId>, vacant: set<TaskId>)

  // ------------------------------------------------- what the code does --

  /** `yield_core`: the calling core notes it, another is asked once. */
  function YieldCore(s: System, me: nat, core: nat): System
    requires core < |s.cores|
  {
    if core == me then s.(cores := s.cores[core := s.cores[core].(pending := true)])
    else s.(cores := s.cores[core := s.cores[core].(requested := true)])
  }

  /** `running_core` does not see a core that was asked already, so that one is not asked again. */
  function YieldUnasked(s: System, me: nat, core: nat): System
    requires core < |s.cores|
  {
    if s.cores[core].requested then s else YieldCore(s, me, core)
  }

  /** An idle task counts one below its priority. */
  function Standing(s: System, core: nat): int
    requires core < |s.cores|
  {
    if s.cores[core].task in s.idle then s.cores[core].priority - 1 else s.cores[core].priority
  }

  /** The first n cores looked at: the lowest standing so far, and which core has it. */
  function Scan(s: System, priority: nat, n: nat): (int, Option<nat>)
    requires n <= |s.cores|
  {
    if n == 0 then (priority - 1, None) else
      var (lowest, core) := Scan(s, priority, n - 1);
      if !s.cores[n - 1].Flagged() && Standing(s, n - 1) <= lowest then (Standing(s, n - 1), Some(n - 1))
      else (lowest, core)
  }

  predicate RunsUnasked(s: System, task: TaskId) {
    exists c :: 0 <= c < |s.cores| && s.cores[c].task == task && !s.cores[c].requested
  }

  /** `yield_for_task`. */
  function YieldForTask(s: System, me: nat, task: TaskId, priority: nat): System {
    if RunsUnasked(s, task) then s else
      match Scan(s, priority, |s.cores|).1
      case None => s
      case Some(core) => if core < |s.cores| then YieldCore(s, me, core) else s
  }

  function MoveToEnd(list: seq<TaskId>, task: TaskId): seq<TaskId> {
    if task in list then Without(list, task) + [task] else list
  }

  /** The first of a list that is not among those to skip. */
  function FirstNot(list: seq<TaskId>, skip: set<TaskId>): Option<TaskId> {
    if list == [] then None else if list[0] !in skip then Some(list[0]) else FirstNot(list[1..], skip)
  }

  /** From a level down: the first task of the highest level that has one for this core. */
  function Pick(lists: seq<seq<TaskId>>, level: nat, skip: set<TaskId>): Option<(nat, TaskId)>
    requires level < |lists|
  {
    match FirstNot(lists[level], skip)
    case Some(task) => Some((level, task))
    case None => if level == 0 then None else Pick(lists, level - 1, skip)
  }

  /** What a core passes over: what the other core holds, and items whose slot the arena has no task for. */
  function Skipped(s: System, core: nat): set<TaskId>
    requires core < |s.cores| == CORES
  {
    s.vacant + {s.cores[1 - core].task}
  }

  /** The top level comes down past empty levels only. */
  function TopAfter(lists: seq<seq<TaskId>>, top: nat): nat
    requires top < |lists|
  {
    if lists[top] != [] || top == 0 then top else TopAfter(lists, top - 1)
  }

  function Rotated(s: System, core: nat): seq<seq<TaskId>>
    requires core < |s.cores| && s.cores[core].priority < |s.lists|
  {
    var p := s.cores[core].priority;
    s.lists[p := MoveToEnd(s.lists[p], s.cores[core].task)]
  }

  /** `switch_context_smp` with the scheduler running, and `select_for_core` in it; false is a stall. */
  function Switch(s: System, core: nat): (System, bool)
    requires core < |s.cores| == CORES && s.cores[core].priority < |s.lists| && s.top < |s.lists|
  {
    var lists, mine := Rotated(s, core), s.cores[core].(pending := false);
    var t := s.(lists := lists, top := TopAfter(lists, s.top));
    match Pick(lists, s.top, Skipped(s, core))
    case None => (t.(cores := s.cores[core := mine]), false)
    case Some((level, task)) =>
      var now := if task == mine.task then mine else mine.(task := task, priority := level);
      (t.(cores := s.cores[core := now.(requested := false)]), true)
  }

  /** `add_task_to_ready_list_at`. */
  function AddReady(s: System, task: TaskId, level: nat): System
    requires level < |s.lists|
  {
    s.(lists := s.lists[level := s.lists[level] + [task]], top := if level > s.top then level else s.top)
  }

  function RemoveReady(s: System, task: TaskId, level: nat): System
    requires level < |s.lists|
  {
    s.(lists := s.lists[level := Without(s.lists[level], task)])
  }

  /** The ready list a task is on, if any. */
  function LevelOf(lists: seq<seq<TaskId>>, task: TaskId): Option<nat> {
    if lists == [] then None
    else if task in lists[|lists| - 1] then Some(|lists| - 1) else LevelOf(lists[..|lists| - 1], task)
  }

  /** Off whatever ready list it is on. */
  function Unlisted(s: System, task: TaskId): System {
    match LevelOf(s.lists, task)
    case Some(level) => if level < |s.lists| then RemoveReady(s, task, level) else s
    case None => s
  }

  /** `set_task_priority`, of what a core runs. */
  function Recache(s: System, core: nat, priority: nat): System
    requires core < |s.cores|
  {
    s.(cores := s.cores[core := s.cores[core].(priority := priority)])
  }

  // ------------------------------------------------------ what is kept --

  predicate Ready(s: System, task: TaskId, level: int) {
    0 <= level < |s.lists| && task in s.lists[level] && task !in s.vacant
  }

  predicate Held(s: System, task: TaskId)
    requires |s.cores| == CORES
  {
    task == s.cores[0].task || task == s.cores[1].task
  }

  /** Ready, and no core holds it. */
  predicate Free(s: System, task: TaskId, level: int)
    requires |s.cores| == CORES
  {
    Ready(s, task, level) && !Held(s, task)
  }

  /** A task is on one ready list at most, and once. */
  ghost predicate Listed(lists: seq<seq<TaskId>>) {
    && (forall l :: 0 <= l < |lists| ==> Distinct(lists[l]))
    && forall t, l, m :: 0 <= l < |lists| && 0 <= m < |lists| && t in lists[l] && t in lists[m] ==> l == m
  }

  /** A core's task is at its cached level where it is ready at all, and a core that owes no switch
      runs a ready task. */
  ghost predicate CoreOk(s: System, c: Core) {
    && c.priority < |s.lists|
    && (forall l :: Ready(s, c.task, l) ==> l == c.priority)
    && (!c.Flagged() ==> Ready(s, c.task, c.priority))
    && (c.task in s.idle ==> c.priority == 0) && c.task !in s.vacant
  }

  ghost predicate Sound(s: System) {
    && |s.cores| == CORES && s.cores[0].task != s.cores[1].task
    && s.top < |s.lists| && (forall t, l :: Ready(s, t, l) ==> l <= s.top)
    && Listed(s.lists) && CoreOk(s, s.cores[0]) && CoreOk(s, s.cores[1])
    && forall t, l :: Ready(s, t, l) && t in s.idle ==> l == 0
  }

  /** What core c might pick: ready, and not what the other core holds. */
  ghost predicate Contends(s: System, c: nat, task: TaskId, level: int)
    requires c < |s.cores| == CORES
  {
    Ready(s, task, level) && task != s.cores[1 - c].task
  }

  ghost predicate Threatens(s: System, o: nat, c: nat, task: TaskId, level: int)
    requires o < |s.cores| == CORES && c < CORES
  {
    Contends(s, c, task, level) && level > s.cores[o].priority
  }

  /** A core that owes no switch is outranked by no free task; or, while the other core owes one, by
      one contender at most, which that switch will take. */
  ghost predicate Defended(s: System, o: nat, c: nat)
    requires o < |s.cores| == CORES && c < CORES
  {
    !s.cores[o].Flagged() ==>
      if s.cores[c].Flagged() then
        forall t, l, u, m :: Threatens(s, o, c, t, l) && Threatens(s, o, c, u, m) ==> t == u
      else
        forall t, l :: Free(s, t, l) ==> l <= s.cores[o].priority
  }

  ghost predicate Covered(s: System)
    requires |s.cores| == CORES
  {
    Defended(s, 0, 1) && Defended(s, 1, 0)
  }

  /** No ready task that no core holds outranks what some core runs. */
  ghost predicate Optimal(s: System)
    requires |s.cores| == CORES
  {
    forall t, l, c :: Free(s, t, l) && 0 <= c < CORES ==> l <= s.cores[c].priority
  }

  /** The idle tasks are always ready, at level 0, and there are as many as cores. */
  ghost predicate IdleReady(s: System) {
    && (forall i :: i in s.idle ==> Ready(s, i, 0))
    && exists i, j :: i in s.idle && j in s.idle && i != j
  }

  lemma SettledIsOptimal(s: System)
    requires Sound(s) && Covered(s) && !s.cores[0].Flagged() && !s.cores[1].Flagged()
    ensures Optimal(s)
  {
  }

  lemma OptimalIsSettled(s: System)
    requires Sound(s) && Optimal(s) && !s.cores[0].Flagged() && !s.cores[1].Flagged()
    ensures Covered(s)
  {
  }

  // ---------------------------------------------------------- the lists --

  lemma MovedFacts(list: seq<TaskId>, task: TaskId)
    requires Distinct(list)
    ensures Distinct(MoveToEnd(list, task))
    ensures forall u :: u in MoveToEnd(list, task) <==> u in list
  {
    WithoutFacts(list, task);
  }

  lemma {:induction false} FirstNotFacts(list: seq<TaskId>, skip: set<TaskId>)
    ensures var f := FirstNot(list, skip);
      && (f.Some? ==> f.value in list && f.value !in skip)
      && (f.None? ==> forall u :: u in list ==> u in skip)
  {
    if list != [] && list[0] in skip {
      FirstNotFacts(list[1..], skip);
      assert list == [list[0]] + list[1..];
    }
  }

  lemma {:induction false} PickFacts(s: System, level: nat, skip: set<TaskId>)
    requires level < |s.lists| && s.vacant <= skip
    ensures var p := Pick(s.lists, level, skip);
      && (p.Some? ==> p.value.0 <= level && Ready(s, p.value.1, p.value.0) && p.value.1 !in skip)
      && (p.Some? ==> forall u, m :: Ready(s, u, m) && m <= level && u !in skip ==> m <= p.value.0)
      && (p.None? ==> forall u, m :: Ready(s, u, m) && m <= level ==> u in skip)
  {
    FirstNotFacts(s.lists[level], skip);
    if FirstNot(s.lists[level], skip).None? && level > 0 { PickFacts(s, level - 1, skip); }
  }

  lemma {:induction false} TopAfterFacts(s: System, top: nat)
    requires top < |s.lists|
    ensures TopAfter(s.lists, top) <= top
    ensures forall t, l :: Ready(s, t, l) && l <= top ==> l <= TopAfter(s.lists, top)
    ensures TopAfter(s.lists, top) == 0 || s.lists[TopAfter(s.lists, top)] != []
  {
    if s.lists[top] == [] && top > 0 { TopAfterFacts(s, top - 1); }
  }

  lemma RotatedFacts(s: System, core: nat)
    requires Sound(s) && core < CORES
    ensures var r := s.(lists := Rotated(s, core));
      && Listed(r.lists) && forall t, l :: Ready(r, t, l) <==> Ready(s, t, l)
  {
    MovedFacts(s.lists[s.cores[core].priority], s.cores[core].task);
    var r := s.(lists := Rotated(s, core));
    forall t, l ensures Ready(r, t, l) <==> Ready(s, t, l) {
    }
  }

  // ---------------------------------------------------------- a switch --

  /** A core that switches takes a highest of the ready tasks that the other core does not hold, and
      stalls only where there is none; who is ready does not change. */
  lemma SwitchPicksHighest(s: System, core: nat)
    requires Sound(s) && core < CORES
    ensures var (t, ok) := Switch(s, core);
      var other := s.cores[1 - core].task;
      && |t.cores| == CORES && t.cores[1 - core] == s.cores[1 - core] && t.idle == s.idle && |t.lists| == |s.lists|
      && t.vacant == s.vacant && Listed(t.lists) && (forall u, l :: Ready(t, u, l) <==> Ready(s, u, l))
      && t.top < |t.lists| && (forall u, l :: Ready(t, u, l) ==> l <= t.top) && (t.top == 0 || t.lists[t.top] != [])
      && (ok <==> exists u, l :: Ready(s, u, l) && u != other)
      && (ok ==> !t.cores[core].Flagged() && t.cores[core].task != other)
      && (ok ==> Ready(t, t.cores[core].task, t.cores[core].priority))
      && (ok ==> forall u, l :: Ready(s, u, l) && u != other ==> l <= t.cores[core].priority)
  {
    hide Listed, Distinct, MoveToEnd, FirstNot, Pick, TopAfter;
    var r := s.(lists := Rotated(s, core));
    RotatedFacts(s, core);
    PickFacts(r, s.top, Skipped(s, core));
    TopAfterFacts(r, s.top);
  }

  /** No stall while there are as many ready tasks as cores. */
  lemma NoStall(s: System, core: nat, t: TaskId, l: nat, u: TaskId, m: nat)
    requires Sound(s) && core < CORES && Ready(s, t, l) && Ready(s, u, m) && t != u
    ensures Switch(s, core).1
  {
    SwitchPicksHighest(s, core);
    assert t != s.cores[1 - core].task || u != s.cores[1 - core].task;
  }

  lemma IdleMeansNoStall(s: System, core: nat)
    requires Sound(s) && IdleReady(s) && core < CORES
    ensures Switch(s, core).1
  {
    hide Switch, Sound;
    var i, j :| i in s.idle && j in s.idle && i != j;
    NoStall(s, core, i, 0, j, 0);
  }

  lemma SwitchKeepsSound(s: System, core: nat)
    requires Sound(s) && core < CORES && Switch(s, core).1
    ensures Sound(Switch(s, core).0)
  {
    hide Switch, Distinct;
    var t := Switch(s, core).0;
    SwitchPicksHighest(s, core);
    var won, level := t.cores[core].task, t.cores[core].priority;
    forall l | Ready(t, won, l) ensures l == level {
      assert Ready(t, won, level);
    }
    assert CoreOk(t, t.cores[core]);
    assert CoreOk(s, s.cores[1 - core]) && CoreOk(t, t.cores[1 - core]);
  }

  /** A switch of a core that owes one leaves it owing none, and both cores defended. */
  lemma SwitchKeeps(s: System, core: nat)
    requires Sound(s) && Covered(s) && core < CORES && s.cores[core].Flagged() && Switch(s, core).1
    ensures Sound(Switch(s, core).0) && Covered(Switch(s, core).0)
    ensures !Switch(s, core).0.cores[core].Flagged()
  {
    hide Switch, Listed;
    var t := Switch(s, core).0;
    SwitchPicksHighest(s, core);
    SwitchKeepsSound(s, core);
    var o := 1 - core;
    var won, level := t.cores[core].task, t.cores[core].priority;
    forall u, m | Free(t, u, m) ensures m <= level && u != won && Contends(s, core, u, m) {
      assert Ready(s, u, m);
    }
    assert Ready(s, won, level) && Contends(s, core, won, level);
    assert Defended(s, o, core);
    forall u, m | !t.cores[o].Flagged() && Free(t, u, m) ensures m <= t.cores[o].priority {
      assert m > t.cores[o].priority ==> Threatens(s, o, core, u, m) && Threatens(s, o, core, won, level);
    }
    assert Defended(t, o, core);
    assert Defended(t, core, o);
  }

  // ---------------------------------------------------- a task readied --

  /** The core chosen owes no switch, stands below the task and no higher than any other that owes
      none, and is the last of its standing; where none is chosen, none stands below. */
  lemma {:induction false} ScanFacts(s: System, priority: nat, n: nat)
    requires n <= |s.cores|
    ensures var (lowest, core) := Scan(s, priority, n);
      && lowest <= priority - 1
      && (core.None? ==> lowest == priority - 1)
      && (core.Some? ==> core.value < n && !s.cores[core.value].Flagged() && Standing(s, core.value) == lowest)
      && (forall c :: 0 <= c < n && !s.cores[c].Flagged() ==> lowest <= Standing(s, c))
      && (core.Some? ==> forall c :: core.value < c < n && !s.cores[c].Flagged() ==> lowest < Standing(s, c))
      && (core.None? ==> forall c :: 0 <= c < n && !s.cores[c].Flagged() ==> lowest < Standing(s, c))
  {
    if n > 0 { ScanFacts(s, priority, n - 1); }
  }

  /** A core that may be asked to make way: it owes no switch, and runs something below the level, or an idle
      task not above it. */
  predicate MayGiveWay(s: System, c: nat, level: nat)
    requires c < |s.cores|
  {
    && !s.cores[c].pending && !s.cores[c].requested
    && if s.cores[c].task in s.idle then s.cores[c].priority <= level else s.cores[c].priority < level
  }

  /** What it runs counts less than what another core runs; an idle task counts less than another task of its
      level. */
  predicate RunsLess(s: System, c: nat, d: nat)
    requires c < |s.cores| && d < |s.cores|
  {
    var x, y := s.cores[c], s.cores[d];
    if x.task in s.idle && y.task !in s.idle then x.priority <= y.priority
    else if x.task !in s.idle && y.task in s.idle then x.priority + 1 < y.priority
    else x.priority < y.priority
  }

  /** Whom a search for a core asks: nobody, if a core that was not asked runs the task or none may give way;
      else one that may, that none that may runs less than, and of two alike the higher. */
  lemma SoughtExactly(s: System, me: nat, task: TaskId, level: nat)
    requires |s.cores| == CORES
    ensures var t := YieldForTask(s, me, task, level);
      if (exists c :: 0 <= c < CORES && s.cores[c].task == task && !s.cores[c].requested)
        || (forall c :: 0 <= c < CORES ==> !MayGiveWay(s, c, level))
      then t == s
      else exists c: nat ::
        && c < CORES && MayGiveWay(s, c, level)
        && (MayGiveWay(s, 1 - c, level) ==> !RunsLess(s, 1 - c, c) && (c < 1 - c ==> RunsLess(s, c, 1 - c)))
        && t == s.(cores := s.cores[c := if c == me then s.cores[c].(pending := true) else s.cores[c].(requested := true)])
  {
    var chosen := Scan(s, level, 2).1;
    assert Scan(s, level, 0) == (level - 1, None);
    assert forall c :: 0 <= c < CORES ==> (MayGiveWay(s, c, level) <==> !s.cores[c].Flagged() && Standing(s, c) <= level - 1);
    assert forall c, d :: 0 <= c < CORES && 0 <= d < CORES ==> (RunsLess(s, c, d) <==> Standing(s, c) < Standing(s, d));
    hide MayGiveWay, RunsLess;
    assert Scan(s, level, 1).1 == if MayGiveWay(s, 0, level) then Some(0) else None;
    if chosen.Some? {
      assert MayGiveWay(s, chosen.value, level);
    }
  }

  /** What blocks is off its list, and the core that runs it owes a switch, asked for once. */
  lemma BlockedExactly(s: System, core: nat, me: nat)
    requires |s.cores| == CORES && core < CORES && s.cores[core].priority < |s.lists|
    ensures var t, was := After(s, Blocked(core, me)), s.cores[core];
      && t.cores[1 - core] == s.cores[1 - core] && t.cores[core].task == was.task && t.cores[core].priority == was.priority
      && t.cores[core].requested == (was.requested || core != me)
      && t.cores[core].pending == (was.pending || (core == me && !was.requested))
      && forall l :: 0 <= l < |s.lists| ==>
        t.lists[l] == if l == was.priority then Without(s.lists[l], was.task) else s.lists[l]
  {
  }

  /** A threat by another than the task just readied or raised. */
  ghost predicate OldThreat(s: System, o: nat, c: nat, task: TaskId, u: TaskId, m: int)
    requires o < |s.cores| == CORES && c < CORES
  {
    Threatens(s, o, c, u, m) && u != task
  }

  /** `Defended`, but for a task just readied or raised. */
  ghost predicate DefendedBut(s: System, o: nat, c: nat, task: TaskId)
    requires o < |s.cores| == CORES && c < CORES
  {
    !s.cores[o].Flagged() ==>
      if s.cores[c].Flagged() then
        forall t, l, u, m :: OldThreat(s, o, c, task, t, l) && OldThreat(s, o, c, task, u, m) ==> t == u
      else
        forall t, l :: Free(s, t, l) && t != task ==> l <= s.cores[o].priority
  }

  /** A core that has noted a switch but was not asked for one holds the task: nobody makes way for it,
      and if it outranks what the other core runs, as a free task does too, one of the two is left. */
  ghost predicate Squeezed(s: System, core: nat, level: nat)
    requires core < |s.cores| == CORES
  {
    var o := s.cores[1 - core];
    && s.cores[core].pending && !s.cores[core].requested && !o.Flagged() && level > o.priority
    && exists t, l :: Free(s, t, l) && l > o.priority
  }

  /** Whoever is asked to make way, both cores are defended afterwards, unless the task is squeezed. */
  lemma YieldDefends(r: System, me: nat, task: TaskId, level: nat, o: nat)
    requires |r.cores| == CORES && me < CORES && o < CORES && DefendedBut(r, o, 1 - o, task)
    requires CoreOk(r, r.cores[0]) && CoreOk(r, r.cores[1])
    requires forall m :: Ready(r, task, m) ==> m == level
    requires task == r.cores[1 - o].task ==> !Squeezed(r, 1 - o, level)
    ensures Defended(YieldForTask(r, me, task, level), o, 1 - o)
  {
    hide Scan, Distinct, Listed, Threatens, Defended, DefendedBut, CoreOk;
    var c, chosen := 1 - o, Scan(r, level, |r.cores|).1;
    ScanFacts(r, level, |r.cores|);
    if RunsUnasked(r, task) || chosen.None? {
      NobodyAsked(r, task, level, o);
    } else if chosen.value == c {
      OtherAsked(r, YieldCore(r, me, c), task, level, o);
    } else {
      OwnAsked(YieldCore(r, me, o), o);
    }
  }

  lemma OwnAsked(t: System, o: nat)
    requires |t.cores| == CORES && o < CORES && t.cores[o].Flagged()
    ensures Defended(t, o, 1 - o)
  {
  }

  /** Nobody is asked: the task does not outrank what this core runs, or is what it runs, or is held by
      the other core, where it is not squeezed. */
  lemma NobodyAsked(r: System, task: TaskId, level: nat, o: nat)
    requires |r.cores| == CORES && o < CORES && DefendedBut(r, o, 1 - o, task)
    requires forall m :: Ready(r, task, m) ==> m == level
    requires task == r.cores[1 - o].task ==> !Squeezed(r, 1 - o, level)
    requires RunsUnasked(r, task) || (!r.cores[o].Flagged() ==> level - 1 < Standing(r, o))
    ensures Defended(r, o, 1 - o)
  {
    var c := 1 - o;
    assert forall u, m :: Threatens(r, o, c, u, m) ==> OldThreat(r, o, c, task, u, m) || (u == task && m == level);
    assert forall u, m :: Threatens(r, o, c, u, m) && u != r.cores[c].task ==> Free(r, u, m);
  }

  /** The other core is asked, which runs nothing above what this one runs. */
  lemma OtherAsked(r: System, t: System, task: TaskId, level: nat, o: nat)
    requires |r.cores| == |t.cores| == CORES && o < CORES && DefendedBut(r, o, 1 - o, task)
    requires CoreOk(r, r.cores[1 - o]) && forall m :: Ready(r, task, m) ==> m == level
    requires r.lists == t.lists && r.vacant == t.vacant && t.cores[o] == r.cores[o] && t.cores[1 - o].Flagged() && !r.cores[1 - o].Flagged()
    requires t.cores[1 - o].task == r.cores[1 - o].task && t.cores[1 - o].priority == r.cores[1 - o].priority
    requires !r.cores[o].Flagged() ==> Standing(r, 1 - o) <= Standing(r, o)
    ensures Defended(t, o, 1 - o)
  {
    var c := 1 - o;
    assert forall u, m :: Free(t, u, m) <==> Free(r, u, m);
    if !t.cores[o].Flagged() {
      assert r.cores[c].priority <= r.cores[o].priority;
      forall u, m | Threatens(t, o, c, u, m) ensures u == task {
        assert Ready(r, u, m) && (u != r.cores[c].task ==> Free(r, u, m));
      }
    }
  }

  lemma AddKeepsListed(lists: seq<seq<TaskId>>, task: TaskId, level: nat)
    requires Listed(lists) && level < |lists| && forall l :: 0 <= l < |lists| ==> task !in lists[l]
    ensures Listed(lists[level := lists[level] + [task]])
  {
    var after := lists[level := lists[level] + [task]];
    assert Distinct(after[level]);
    forall l | 0 <= l < |lists| ensures Distinct(after[l]) {
    }
    forall t, l | 0 <= l < |after| && t in after[l] ensures if t == task then l == level else t in lists[l] {
    }
  }

  lemma AddKeepsSound(s: System, task: TaskId, level: nat)
    requires Sound(s) && level < |s.lists|
    requires task !in s.vacant && forall l :: !Ready(s, task, l)
    requires task in s.idle ==> level == 0
    requires forall c :: 0 <= c < CORES && s.cores[c].task == task ==> s.cores[c].priority == level
    ensures Sound(AddReady(s, task, level))
    ensures forall u, m :: Ready(AddReady(s, task, level), u, m) <==> Ready(s, u, m) || (u == task && m == level)
  {
    var r := AddReady(s, task, level);
    forall u, m ensures Ready(r, u, m) <==> Ready(s, u, m) || (u == task && m == level) {
    }
    assert forall l :: 0 <= l < |s.lists| && task in s.lists[l] ==> Ready(s, task, l);
    AddKeepsListed(s.lists, task, level);
    hide Listed;
    assert CoreOk(s, s.cores[0]) && CoreOk(s, s.cores[1]);
    assert CoreOk(r, r.cores[0]) && CoreOk(r, r.cores[1]);
  }

  /** A newly ready task: either nobody needs to give way, or the core asked is one whose task the
      other core's does not undercut. */
  lemma ReadiedIsCovered(s: System, me: nat, task: TaskId, level: nat)
    requires Sound(s) && Covered(s) && Possible(s, Readied(task, level, me))
    ensures Sound(After(s, Readied(task, level, me)))
    ensures Covered(After(s, Readied(task, level, me))) <==> !Crowds(s, Readied(task, level, me))
  {
    var r := AddReady(s, task, level);
    AddKeepsSound(s, task, level);
    YieldKeepsSound(r, me, task, level);
    AddedIsAlmost(s, task, level, 0);
    AddedIsAlmost(s, task, level, 1);
    hide AddReady, Listed, DefendedBut, YieldForTask;
    assert r.cores == s.cores by { Added(s, task, level); }
    assert forall u, m :: Free(r, u, m) && u != task <==> Free(s, u, m);
    assert forall c :: 0 <= c < CORES && s.cores[c].task == task ==> (Squeezed(r, c, level) <==> Squeezed(s, c, level));
    YieldCovers(r, me, task, level);
  }

  lemma YieldCovers(r: System, me: nat, task: TaskId, level: nat)
    requires Sound(r) && me < CORES && forall m :: Ready(r, task, m) <==> m == level
    requires DefendedBut(r, 0, 1, task) && DefendedBut(r, 1, 0, task)
    ensures |YieldForTask(r, me, task, level).cores| == CORES
    ensures Covered(YieldForTask(r, me, task, level))
      <==> !exists c: nat :: c < CORES && r.cores[c].task == task && Squeezed(r, c, level)
  {
    hide Listed, DefendedBut, YieldForTask, Squeezed;
    YieldKeepsSound(r, me, task, level);
    if c: nat :| c < CORES && r.cores[c].task == task && Squeezed(r, c, level) {
      Crowding(r, me, c, level);
    } else {
      YieldDefends(r, me, task, level, 0);
      YieldDefends(r, me, task, level, 1);
    }
  }

  /** A squeezed task has nobody asked to make way, and the other core is outranked twice. */
  lemma Crowding(r: System, me: nat, core: nat, level: nat)
    requires |r.cores| == CORES && core < CORES && r.cores[0].task != r.cores[1].task
    requires Squeezed(r, core, level) && Ready(r, r.cores[core].task, level)
    ensures YieldForTask(r, me, r.cores[core].task, level) == r && !Covered(r)
  {
    var o, task := 1 - core, r.cores[core].task;
    assert RunsUnasked(r, task);
    var u, m :| Free(r, u, m) && m > r.cores[o].priority;
    assert Threatens(r, o, core, u, m) && Threatens(r, o, core, task, level);
  }

  lemma Added(s: System, task: TaskId, level: nat)
    requires level < |s.lists|
    ensures AddReady(s, task, level).cores == s.cores && AddReady(s, task, level).idle == s.idle
  {
  }

  lemma AddedIsAlmost(s: System, task: TaskId, level: nat, o: nat)
    requires Sound(s) && Covered(s) && level < |s.lists| && o < CORES
    requires forall u, m :: Ready(AddReady(s, task, level), u, m) <==> Ready(s, u, m) || (u == task && m == level)
    ensures DefendedBut(AddReady(s, task, level), o, 1 - o, task)
  {
    hide Listed;
    var r, c := AddReady(s, task, level), 1 - o;
    assert Defended(s, o, c);
    forall u, m | Free(r, u, m) && u != task ensures Free(s, u, m) {
    }
    forall u, m | OldThreat(r, o, c, task, u, m) ensures Threatens(s, o, c, u, m) {
    }
  }

  lemma YieldKeepsSound(r: System, me: nat, task: TaskId, level: nat)
    requires Sound(r) && |r.cores| == CORES && me < CORES
    ensures Sound(YieldForTask(r, me, task, level))
  {
    hide Scan, Listed, Sound, YieldCore;
    var chosen := Scan(r, level, |r.cores|).1;
    if chosen.Some? && chosen.value < |r.cores| { YieldCoreKeepsSound(r, me, chosen.value); }
  }

  // ------------------------------------------------- everything that happens --

  datatype Event =
    | Readied(task: TaskId, level: nat, me: nat)    // a task that was not ready is
    | Removed(task: TaskId, level: nat)             // a ready task that no core holds is not any more
    | Lowered(task: TaskId, from: nat, level: nat)  // such a task is lowered
    | Lifted(task: TaskId, from: nat, level: nat)   // such a task is raised by another's wait that timed out
    | Placed(task: TaskId, level: nat)              // ready or not, a task goes to the end of its ready list
    | Sought(task: TaskId, level: nat, me: nat)     // a core is looked for, for a task placed or to be placed
    | Blocked(core: nat, me: nat)                   // what a core runs is not ready any more
    | Demoted(core: nat, level: nat, me: nat)       // what a core runs is lowered
    | Promoted(core: nat, level: nat, me: nat)      // what a core runs is raised
    | Restored(core: nat, level: nat, me: nat)      // what a core runs is raised or lowered by such a wait
    | Vacated(task: TaskId)                         // a task that no core holds is freed, wherever it is
    | Asked(core: nat, me: nat)                     // a core is told to yield: a time slice, a call
    | Switched(core: nat)

  function Relist(s: System, core: nat, level: nat): System
    requires core < |s.cores| && s.cores[core].priority < |s.lists| && level < |s.lists|
  {
    var task, was := s.cores[core].task, s.cores[core].priority;
    var t := if Ready(s, task, was) then AddReady(RemoveReady(s, task, was), task, level) else s;
    Recache(t, core, level)
  }

  /** `priority_disinherit` and its like, of a ready task that no core holds: nobody is asked. */
  function Relevel(s: System, task: TaskId, from: nat, level: nat): System
    requires from < |s.lists| && level < |s.lists|
  {
    AddReady(RemoveReady(s, task, from), task, level)
  }

  /** A turn of `drain_pending_ready_walk`, and the list moves of a notification: off the list it is on, if it
      is on one, and onto its ready list.  Nobody is asked. */
  function Place(s: System, task: TaskId, level: nat): System
    requires level < |s.lists|
  {
    if Ready(s, task, level) then Relevel(s, task, level, level) else AddReady(s, task, level)
  }

  /** `set_priority` and `priority_inherit`, of what a core runs: a raise readies a contender. */
  function Raise(s: System, core: nat, level: nat, me: nat): System
    requires core < |s.cores| && s.cores[core].priority < |s.lists| && level < |s.lists|
  {
    var t := Relist(s, core, level);
    if Ready(s, s.cores[core].task, s.cores[core].priority) then YieldForTask(t, me, s.cores[core].task, level) else t
  }

  /** `priority_disinherit_after_timeout`, of what a core runs: if it is ready, its core is asked. */
  function Restore(s: System, core: nat, level: nat, me: nat): System
    requires core < |s.cores| && s.cores[core].priority < |s.lists| && level < |s.lists|
  {
    var t := Relist(s, core, level);
    if Ready(s, s.cores[core].task, s.cores[core].priority) then YieldUnasked(t, me, core) else t
  }

  function After(s: System, e: Event): (t: System)
    requires |s.cores| == CORES
    ensures |t.cores| == CORES
  {
    match e
    case Readied(task, level, me) =>
      if level < |s.lists| then YieldForTask(AddReady(s, task, level), me, task, level) else s
    case Removed(task, level) => if level < |s.lists| then RemoveReady(s, task, level) else s
    case Lowered(task, from, level) =>
      if from < |s.lists| && level < |s.lists| then Relevel(s, task, from, level) else s
    case Lifted(task, from, level) =>
      if from < |s.lists| && level < |s.lists| then Relevel(s, task, from, level) else s
    case Placed(task, level) => if level < |s.lists| then Place(s, task, level) else s
    case Sought(task, level, me) => YieldForTask(s, me, task, level)
    case Blocked(core, me) =>
      if core < CORES && s.cores[core].priority < |s.lists| then
        YieldUnasked(RemoveReady(s, s.cores[core].task, s.cores[core].priority), me, core)
      else s
    case Demoted(core, level, me) =>
      if core < CORES && s.cores[core].priority < |s.lists| && level < |s.lists| then
        YieldUnasked(Relist(s, core, level), me, core)
      else s
    case Promoted(core, level, me) =>
      if core < CORES && s.cores[core].priority < |s.lists| && level < |s.lists| then Raise(s, core, level, me) else s
    case Restored(core, level, me) =>
      if core < CORES && s.cores[core].priority < |s.lists| && level < |s.lists| then Restore(s, core, level, me) else s
    case Vacated(task) => s.(vacant := s.vacant + {task})
    case Asked(core, me) => if core < CORES then YieldCore(s, me, core) else s
    case Switched(core) =>
      if core < CORES && s.cores[core].priority < |s.lists| && s.top < |s.lists| then Switch(s, core).0 else s
  }

  /** A task that is not ready, and its level. */
  ghost predicate Joins(s: System, task: TaskId, level: nat)
    requires |s.cores| == CORES
  {
    && level < |s.lists| && task !in s.idle && task !in s.vacant && (forall l :: !Ready(s, task, l))
    && forall c :: 0 <= c < CORES && s.cores[c].task == task ==> s.cores[c].priority == level
  }

  /** What can happen, but that the idle tasks stay ready at level 0.  What wakes a task while the scheduler
      is suspended makes the kernel seek a core at once and place the task at the resume; a switch is then a
      request of the core's own.  A notification of a task that is ready already places it and seeks a
      core. */
  ghost predicate Possible(s: System, e: Event)
    requires Sound(s)
  {
    match e
    case Readied(task, level, me) => me < CORES && Joins(s, task, level)
    case Removed(task, level) => Free(s, task, level) && task !in s.idle
    case Placed(task, level) => Ready(s, task, level) || Joins(s, task, level)
    case Sought(task, level, me) => me < CORES
    case Lowered(task, from, level) => Free(s, task, from) && level < from
    case Lifted(task, from, level) => Free(s, task, from) && from < level < |s.lists| && task !in s.idle
    case Blocked(core, me) => core < CORES && me < CORES && s.cores[core].task !in s.idle
    case Demoted(core, level, me) => core < CORES && me < CORES && level < s.cores[core].priority
    case Promoted(core, level, me) =>
      core < CORES && me < CORES && s.cores[core].priority < level < |s.lists| && s.cores[core].task !in s.idle
    case Restored(core, level, me) =>
      core < CORES && me < CORES && s.cores[core].priority != level < |s.lists| && s.cores[core].task !in s.idle
    case Vacated(task) => !Held(s, task) && task !in s.idle
    case Asked(core, me) => core < CORES && me < CORES
    case Switched(core) => core < CORES && s.cores[core].Flagged()
  }

  /** A raise that asks nobody, or only the task's own core: a core that owes no switch stays or comes to be
      outranked, by this task alone while the other core owes nothing, or by this and another task. */
  ghost predicate Overtakes(s: System, task: TaskId, level: nat, o: nat)
    requires o < |s.cores| == CORES
  {
    var c := 1 - o;
    && !s.cores[o].Flagged() && level > s.cores[o].priority
    && (!s.cores[c].Flagged() || exists u, m :: OldThreat(s, o, c, task, u, m))
  }

  /** The ways to break the defence: what a core holds is readied or raised while it is squeezed, or a raise
      that asks nobody overtakes. */
  ghost predicate Crowds(s: System, e: Event)
    requires |s.cores| == CORES
  {
    match e
    case Readied(task, level, _) => exists c: nat :: c < CORES && s.cores[c].task == task && Squeezed(s, c, level)
    case Promoted(core, level, _) =>
      core < CORES && Ready(s, s.cores[core].task, s.cores[core].priority) && Squeezed(s, core, level)
    case Lifted(task, _, level) => exists o: nat :: o < CORES && Overtakes(s, task, level, o)
    case Placed(task, level) => !Ready(s, task, level) && exists o: nat :: o < CORES && Overtakes(s, task, level, o)
    case Restored(core, level, _) =>
      && core < CORES && Ready(s, s.cores[core].task, s.cores[core].priority)
      && !s.cores[1 - core].Flagged() && level > s.cores[1 - core].priority
      && exists u, m :: Free(s, u, m) && m > s.cores[1 - core].priority
    case _ => false
  }

  lemma RemoveFacts(s: System, task: TaskId, level: nat)
    requires Listed(s.lists) && level < |s.lists| && task !in s.vacant && forall l :: Ready(s, task, l) ==> l == level
    ensures Listed(RemoveReady(s, task, level).lists)
    ensures forall u, m :: Ready(RemoveReady(s, task, level), u, m) <==> Ready(s, u, m) && u != task
  {
    var r := RemoveReady(s, task, level);
    WithoutFacts(s.lists[level], task);
    forall u, m ensures Ready(r, u, m) <==> Ready(s, u, m) && u != task {
      assert u == task && 0 <= m < |s.lists| && task in s.lists[m] ==> Ready(s, task, m);
    }
    assert forall u, l :: 0 <= l < |r.lists| && u in r.lists[l] ==> u in s.lists[l];
  }

  lemma Reshelved(s: System, task: TaskId, level: nat)
    requires level < |s.lists|
    ensures var t := RemoveReady(s, task, level);
      t.cores == s.cores && t.top == s.top && t.idle == s.idle && t.vacant == s.vacant && |t.lists| == |s.lists|
  {
  }

  lemma RemovedIsSound(s: System, task: TaskId, level: nat)
    requires Sound(s) && Free(s, task, level)
    ensures Sound(RemoveReady(s, task, level)) && RemoveReady(s, task, level).cores == s.cores
    ensures forall u, m :: Ready(RemoveReady(s, task, level), u, m) <==> Ready(s, u, m) && u != task
  {
    var t := RemoveReady(s, task, level);
    RemoveFacts(s, task, level);
    Reshelved(s, task, level);
    hide Listed, RemoveReady;
    assert CoreOk(s, s.cores[0]) && CoreOk(s, s.cores[1]) && CoreOk(t, t.cores[0]) && CoreOk(t, t.cores[1]);
  }

  lemma VacatedIsSound(s: System, task: TaskId)
    requires Sound(s) && !Held(s, task)
    ensures var t := s.(vacant := s.vacant + {task});
      Sound(t) && forall u, m :: Ready(t, u, m) <==> Ready(s, u, m) && u != task
  {
    hide Listed;
    var t := s.(vacant := s.vacant + {task});
    assert forall u, m :: Ready(t, u, m) <==> Ready(s, u, m) && u != task;
    assert CoreOk(s, s.cores[0]) && CoreOk(s, s.cores[1]) && CoreOk(t, t.cores[0]) && CoreOk(t, t.cores[1]);
  }

  lemma NobodyNew(s: System, t: System)
    requires |s.cores| == CORES && t.cores == s.cores && Covered(s)
    requires forall u, m :: Ready(t, u, m) ==> Ready(s, u, m)
    ensures Covered(t)
  {
    hide Ready, Defended;
    assert forall u, m :: Ready(t, u, m) ==> Ready(s, u, m) && m >= m;
    FewerThreats(s, t, 0);
    FewerThreats(s, t, 1);
  }

  lemma VacatedKeeps(s: System, task: TaskId)
    requires Sound(s) && Covered(s) && !Held(s, task)
    ensures var t := s.(vacant := s.vacant + {task}); Sound(t) && Covered(t)
  {
    hide Listed, CoreOk, Covered;
    VacatedIsSound(s, task);
    var t := s.(vacant := s.vacant + {task});
    NobodyNew(s, t);
  }

  /** A slot that is taken again, and that no list has an item of, changes nothing yet. */
  lemma OccupiedKeeps(s: System, task: TaskId)
    requires Sound(s) && LevelOf(s.lists, task).None?
    ensures var t := s.(vacant := s.vacant - {task});
      && Sound(t) && (forall u, m :: Ready(t, u, m) <==> Ready(s, u, m)) && (Covered(s) ==> Covered(t))
  {
    hide Listed, Covered;
    var t := s.(vacant := s.vacant - {task});
    OccupiedReady(s, task);
    assert CoreOk(s, s.cores[0]) && CoreOk(s, s.cores[1]) && CoreOk(t, t.cores[0]) && CoreOk(t, t.cores[1]);
    if Covered(s) { NobodyNew(s, t); }
  }

  lemma OccupiedReady(s: System, task: TaskId)
    requires LevelOf(s.lists, task).None?
    ensures var t := s.(vacant := s.vacant - {task}); forall u, m :: Ready(t, u, m) <==> Ready(s, u, m)
  {
    LevelFacts(s.lists, task);
  }

  lemma RemovedKeeps(s: System, task: TaskId, level: nat)
    requires Sound(s) && Covered(s) && Free(s, task, level)
    ensures Sound(RemoveReady(s, task, level)) && Covered(RemoveReady(s, task, level))
  {
    hide Listed, RemoveReady, CoreOk, Covered;
    RemovedIsSound(s, task, level);
    NobodyNew(s, RemoveReady(s, task, level));
  }

  /** The same cores, and every contender was one at its level or above: as well defended. */
  lemma FewerThreats(s: System, t: System, o: nat)
    requires |s.cores| == |t.cores| == CORES && s.cores == t.cores && o < CORES && Defended(s, o, 1 - o)
    requires forall u, m :: Ready(t, u, m) ==> exists n :: Ready(s, u, n) && n >= m
    ensures Defended(t, o, 1 - o)
  {
    var c := 1 - o;
    forall u, m | Threatens(t, o, c, u, m) ensures exists n :: Threatens(s, o, c, u, n) {
      var n :| Ready(s, u, n) && n >= m;
      assert Threatens(s, o, c, u, n);
    }
    forall u, m | Free(t, u, m) ensures exists n :: Free(s, u, n) && n >= m {
      var n :| Ready(s, u, n) && n >= m;
      assert Free(s, u, n);
    }
  }

  lemma RelevelledIsSound(s: System, task: TaskId, from: nat, level: nat)
    requires Sound(s) && Free(s, task, from) && level < |s.lists| && (task in s.idle ==> level == 0)
    ensures var t := Relevel(s, task, from, level);
      && Sound(t) && t.cores == s.cores && t.idle == s.idle
      && forall u, m :: Ready(t, u, m) <==> (Ready(s, u, m) && u != task) || (u == task && m == level)
  {
    RemovedIsSound(s, task, from);
    Reshelved(s, task, from);
    hide RemoveReady, Listed;
    AddKeepsSound(RemoveReady(s, task, from), task, level);
  }

  lemma FreeBelow(s: System, task: TaskId, from: nat, level: nat)
    requires Sound(s) && Free(s, task, from) && level < from
    ensures level < |s.lists| && (task in s.idle ==> level == 0)
  {
  }

  lemma LoweredKeeps(s: System, task: TaskId, from: nat, level: nat)
    requires Sound(s) && Covered(s) && Free(s, task, from) && level < from
    ensures level < |s.lists| && Sound(Relevel(s, task, from, level)) && Covered(Relevel(s, task, from, level))
  {
    hide Relevel, Listed, CoreOk, Defended;
    FreeBelow(s, task, from, level);
    RelevelledIsSound(s, task, from, level);
    var t := Relevel(s, task, from, level);
    LowerReady(s, t, task, from, level);
    FewerThreats(s, t, 0);
    FewerThreats(s, t, 1);
  }

  lemma LowerReady(s: System, t: System, task: TaskId, from: nat, level: nat)
    requires Ready(s, task, from) && level < from
    requires forall u, m :: Ready(t, u, m) <==> (Ready(s, u, m) && u != task) || (u == task && m == level)
    ensures forall u, m :: Ready(t, u, m) ==> exists n :: Ready(s, u, n) && n >= m
  {
    hide Ready;
    forall u, m | Ready(t, u, m) ensures exists n :: Ready(s, u, n) && n >= m {
      assert if u == task then Ready(s, u, from) else Ready(s, u, m);
    }
  }

  /** A free task raised, and nobody asked. */
  lemma LiftedIsCovered(s: System, task: TaskId, from: nat, level: nat)
    requires Sound(s) && Covered(s) && Possible(s, Lifted(task, from, level))
    ensures Sound(After(s, Lifted(task, from, level)))
    ensures Covered(After(s, Lifted(task, from, level))) <==> !Crowds(s, Lifted(task, from, level))
  {
    hide Relevel, Listed, CoreOk, Overtakes, Defended;
    RelevelledIsSound(s, task, from, level);
    LiftedDefends(s, task, from, level, 0);
    LiftedDefends(s, task, from, level, 1);
  }

  lemma LiftedDefends(s: System, task: TaskId, from: nat, level: nat, o: nat)
    requires Sound(s) && o < CORES && Defended(s, o, 1 - o) && Possible(s, Lifted(task, from, level))
    ensures Relevel(s, task, from, level).cores == s.cores
    ensures Defended(Relevel(s, task, from, level), o, 1 - o) <==> !Overtakes(s, task, level, o)
  {
    hide Relevel, Listed, CoreOk, Overtakes, Defended;
    RelevelledIsSound(s, task, from, level);
    UnaskedDefends(s, Relevel(s, task, from, level), task, level, o);
  }

  /** A task that is ready at a level, at none above it before, with nobody asked. */
  lemma UnaskedDefends(s: System, t: System, task: TaskId, level: nat, o: nat)
    requires |s.cores| == CORES && t.cores == s.cores && o < CORES && Defended(s, o, 1 - o)
    requires forall u, m :: Ready(t, u, m) <==> (Ready(s, u, m) && u != task) || (u == task && m == level)
    requires forall c :: 0 <= c < CORES && s.cores[c].task == task ==> s.cores[c].Flagged()
    ensures Defended(t, o, 1 - o) <==> !Overtakes(s, task, level, o)
  {
    var c := 1 - o;
    assert forall u, m :: OldThreat(t, o, c, task, u, m) <==> OldThreat(s, o, c, task, u, m);
    assert forall u, m :: Free(t, u, m) && u != task <==> Free(s, u, m) && u != task;
    if !s.cores[o].Flagged() && level > s.cores[o].priority {
      assert Threatens(t, o, c, task, level) && (!s.cores[c].Flagged() ==> Free(t, task, level));
      if s.cores[c].Flagged() && Overtakes(s, task, level, o) {
        var u, m :| OldThreat(s, o, c, task, u, m);
        assert OldThreat(t, o, c, task, u, m);
      }
      assert forall u, m :: Threatens(t, o, c, u, m) ==> u == task || OldThreat(t, o, c, task, u, m);
    } else {
      assert forall u, m :: Threatens(t, o, c, u, m) && !s.cores[o].Flagged() ==> Threatens(s, o, c, u, m);
    }
  }

  lemma PlaceFacts(s: System, task: TaskId, level: nat)
    requires Sound(s) && Possible(s, Placed(task, level))
    ensures level < |s.lists|
    ensures var t := Place(s, task, level);
      && Sound(t) && t.cores == s.cores && t.idle == s.idle && t.vacant == s.vacant
      && forall u, m :: Ready(t, u, m) <==> Ready(s, u, m) || (u == task && m == level)
  {
    if !Ready(s, task, level) {
      AddKeepsSound(s, task, level);
    } else if Held(s, task) {
      var core := if s.cores[0].task == task then 0 else 1;
      assert CoreOk(s, s.cores[core]);
      RelistFacts(s, core, level);
      assert s.cores[core := s.cores[core]] == s.cores;
    } else {
      RelevelledIsSound(s, task, level, level);
    }
  }

  lemma JoinsUnheld(s: System, task: TaskId, level: nat)
    requires Sound(s) && Joins(s, task, level)
    ensures forall c :: 0 <= c < CORES && s.cores[c].task == task ==> s.cores[c].Flagged()
    ensures forall u, m :: Ready(s, u, m) ==> u != task
  {
    assert CoreOk(s, s.cores[0]) && CoreOk(s, s.cores[1]);
  }

  lemma JoinedIsCovered(s: System, t: System, task: TaskId, level: nat)
    requires Sound(s) && Covered(s) && Joins(s, task, level) && t.cores == s.cores
    requires forall u, m :: Ready(t, u, m) <==> Ready(s, u, m) || (u == task && m == level)
    ensures Covered(t) <==> !Overtakes(s, task, level, 0) && !Overtakes(s, task, level, 1)
  {
    JoinsUnheld(s, task, level);
    hide Sound, Joins, Ready, Overtakes, Defended;
    UnaskedDefends(s, t, task, level, 0);
    UnaskedDefends(s, t, task, level, 1);
  }

  /** A task placed, and nobody asked: where it was ready nothing is gained or lost. */
  lemma PlacedIsCovered(s: System, task: TaskId, level: nat)
    requires Sound(s) && Covered(s) && Possible(s, Placed(task, level))
    ensures Sound(After(s, Placed(task, level)))
    ensures Covered(After(s, Placed(task, level))) <==> !Crowds(s, Placed(task, level))
  {
    PlaceFacts(s, task, level);
    hide Place, Listed, CoreOk, Overtakes, Joins, Covered, Ready;
    var t := Place(s, task, level);
    if Ready(s, task, level) {
      NobodyNew(s, t);
    } else {
      JoinedIsCovered(s, t, task, level);
    }
  }

  /** A search for a core asks one or none. */
  lemma SoughtKeeps(s: System, task: TaskId, level: nat, me: nat)
    requires Sound(s) && Covered(s) && me < CORES
    ensures Sound(YieldForTask(s, me, task, level)) && Covered(YieldForTask(s, me, task, level))
  {
    hide Scan, Listed, CoreOk, Covered, YieldCore;
    var chosen := Scan(s, level, |s.cores|).1;
    if chosen.Some? && chosen.value < |s.cores| { AskedKeeps(s, chosen.value, me); }
  }

  /** To be readied is to be placed and a core to be sought. */
  lemma ReadiedIsPlaced(s: System, task: TaskId, level: nat, me: nat)
    requires Sound(s) && Possible(s, Readied(task, level, me))
    ensures Possible(s, Placed(task, level))
    ensures After(After(s, Placed(task, level)), Sought(task, level, me)) == After(s, Readied(task, level, me))
  {
  }

  /** The same but for what one core, now asked to yield, may be lowered to or not have ready any more. */
  lemma AskedDefends(s: System, t: System, core: nat, o: nat)
    requires Sound(s) && Covered(s) && |t.cores| == CORES && core < CORES && o < CORES
    requires forall u, m :: Free(t, u, m) <==> Free(s, u, m)
    requires forall m :: Ready(t, s.cores[core].task, m) ==> exists n :: Ready(s, s.cores[core].task, n) && n >= m
    requires t.cores[1 - core] == s.cores[1 - core] && t.cores[core].Flagged()
    requires t.cores[core].task == s.cores[core].task && t.cores[core].priority <= s.cores[core].priority
    ensures Defended(t, o, 1 - o)
  {
    hide Listed, CoreOk;
    var c, task := 1 - o, s.cores[core].task;
    assert Defended(s, o, c);
    if o != core && !t.cores[o].Flagged() {
      forall u, m | Threatens(t, o, c, u, m) ensures exists n :: Threatens(s, o, c, u, n) {
        if u == task {
          var n :| Ready(s, task, n) && n >= m;
          assert Threatens(s, o, c, u, n);
        } else {
          assert Free(t, u, m) && Free(s, u, m);
          assert Threatens(s, o, c, u, m);
        }
      }
      if !s.cores[core].Flagged() {
        assert forall u, m :: Free(t, u, m) ==> Free(s, u, m) && m <= t.cores[o].priority;
        assert forall u, m :: Threatens(t, o, c, u, m) ==> u == task || Free(t, u, m);
      }
    }
  }

  lemma YieldCoreKeepsSound(s: System, me: nat, core: nat)
    requires Sound(s) && core < CORES
    ensures Sound(YieldCore(s, me, core))
    ensures forall u, m :: Ready(YieldCore(s, me, core), u, m) <==> Ready(s, u, m)
  {
    hide Listed;
    var t := YieldCore(s, me, core);
    assert forall u, m :: Ready(t, u, m) <==> Ready(s, u, m);
    assert CoreOk(s, s.cores[0]) && CoreOk(s, s.cores[1]);
    assert CoreOk(t, t.cores[0]) && CoreOk(t, t.cores[1]);
  }

  lemma AskedKeeps(s: System, core: nat, me: nat)
    requires Sound(s) && Covered(s) && core < CORES && me < CORES
    ensures Sound(YieldCore(s, me, core)) && Covered(YieldCore(s, me, core))
  {
    hide Listed, Defended;
    YieldCoreKeepsSound(s, me, core);
    AskedDefends(s, YieldCore(s, me, core), core, 0);
    AskedDefends(s, YieldCore(s, me, core), core, 1);
  }

  lemma RemoveHeldKeepsSound(s: System, core: nat)
    requires Sound(s) && core < CORES && s.cores[core].Flagged()
    ensures var task, p := s.cores[core].task, s.cores[core].priority;
      && p < |s.lists| && Sound(RemoveReady(s, task, p))
      && forall u, m :: Ready(RemoveReady(s, task, p), u, m) <==> Ready(s, u, m) && u != task
  {
    var task, p := s.cores[core].task, s.cores[core].priority;
    assert CoreOk(s, s.cores[0]) && CoreOk(s, s.cores[1]);
    RemoveFacts(s, task, p);
    Reshelved(s, task, p);
    hide Listed, RemoveReady;
    var t := RemoveReady(s, task, p);
    assert CoreOk(t, t.cores[0]) && CoreOk(t, t.cores[1]);
  }

  lemma BlockedIsSound(s: System, core: nat, me: nat)
    requires Sound(s) && core < CORES && me < CORES
    ensures var t := After(s, Blocked(core, me));
      && Sound(t) && t.idle == s.idle && t.cores[core].Flagged() && t.cores[1 - core] == s.cores[1 - core]
      && t.cores[core].task == s.cores[core].task && t.cores[core].priority == s.cores[core].priority
      && forall u, m :: Ready(t, u, m) <==> Ready(s, u, m) && u != s.cores[core].task
  {
    var task, p := s.cores[core].task, s.cores[core].priority;
    var r := YieldUnasked(s, me, core);
    YieldCoreKeepsSound(s, me, core);
    RemoveHeldKeepsSound(r, core);
    assert RemoveReady(r, task, p) == After(s, Blocked(core, me)) by { assert CoreOk(s, s.cores[core]); }
    Reshelved(r, task, p);
    hide Sound, RemoveReady, After;
  }

  lemma BlockedKeeps(s: System, core: nat, me: nat)
    requires Sound(s) && Covered(s) && core < CORES && me < CORES
    ensures Sound(After(s, Blocked(core, me))) && Covered(After(s, Blocked(core, me)))
  {
    hide Defended, After;
    BlockedIsSound(s, core, me);
    var t := After(s, Blocked(core, me));
    hide Sound;
    AskedDefends(s, t, core, 0);
    AskedDefends(s, t, core, 1);
  }

  lemma {:induction false} LevelFacts(lists: seq<seq<TaskId>>, task: TaskId)
    ensures match LevelOf(lists, task)
      case Some(level) => level < |lists| && task in lists[level]
      case None => forall l :: 0 <= l < |lists| ==> task !in lists[l]
  {
    if lists != [] { LevelFacts(lists[..|lists| - 1], task); }
  }

  lemma {:induction false} WithoutAbsent(list: seq<TaskId>, task: TaskId)
    requires task !in list
    ensures Without(list, task) == list
  {
    if list != [] { WithoutAbsent(list[1..], task); }
  }

  /** A task taken off its list while a core runs it, which is then told to yield: it blocks, and the core
      is asked. */
  lemma UnlistedHeld(s: System, core: nat, me: nat)
    requires Sound(s) && core < CORES
    ensures YieldCore(Unlisted(s, s.cores[core].task), me, core) == After(After(s, Blocked(core, me)), Asked(core, me))
  {
    hide Listed, CoreOk, Unlisted;
    UnlistedBlocked(s, core, me);
    AskedTwice(Unlisted(s, s.cores[core].task), me, core);
  }

  lemma UnlistedBlocked(s: System, core: nat, me: nat)
    requires Sound(s) && core < CORES
    ensures YieldUnasked(Unlisted(s, s.cores[core].task), me, core) == After(s, Blocked(core, me))
    ensures Unlisted(s, s.cores[core].task).cores == s.cores
  {
    var task, p := s.cores[core].task, s.cores[core].priority;
    assert CoreOk(s, s.cores[core]);
    LevelFacts(s.lists, task);
    assert forall l :: 0 <= l < |s.lists| && task in s.lists[l] ==> Ready(s, task, l);
    if LevelOf(s.lists, task).None? {
      WithoutAbsent(s.lists[p], task);
      assert s.lists[p := s.lists[p]] == s.lists;
    }
    assert Unlisted(s, task) == RemoveReady(s, task, p);
  }

  lemma AskedTwice(r: System, me: nat, core: nat)
    requires core < |r.cores|
    ensures YieldCore(YieldUnasked(r, me, core), me, core) == YieldCore(r, me, core)
  {
    var cores := YieldUnasked(r, me, core).cores;
    if r.cores[core].requested {
      assert cores == r.cores;
    } else {
      assert YieldCore(YieldUnasked(r, me, core), me, core).cores == YieldCore(r, me, core).cores;
    }
  }

  /** And one that no core holds is removed, if it is ready. */
  lemma UnlistedFree(s: System, task: TaskId)
    requires Sound(s) && !Held(s, task) && task !in s.vacant
    ensures Unlisted(s, task).cores == s.cores
    ensures if IsReady(s, task) then exists l: nat :: Free(s, task, l) && Unlisted(s, task) == After(s, Removed(task, l))
      else Unlisted(s, task) == s
  {
    LevelFacts(s.lists, task);
    if LevelOf(s.lists, task).Some? {
      assert Free(s, task, LevelOf(s.lists, task).value);
    }
  }

  /** Off whatever ready list it is on and onto that of its level: placed. */
  lemma UnlistedPlaced(s: System, task: TaskId, level: nat)
    requires Sound(s) && Possible(s, Placed(task, level))
    ensures level < |s.lists| == |Unlisted(s, task).lists| && AddReady(Unlisted(s, task), task, level) == Place(s, task, level)
  {
    hide AddReady, RemoveReady, CoreOk;
    LevelFacts(s.lists, task);
    var l := LevelOf(s.lists, task);
    if l.Some? {
      assert Ready(s, task, l.value) || task in s.vacant;
    }
    if Ready(s, task, level) { Reshelved(s, task, level); }
  }

  lemma CoreFacts(s: System, core: nat)
    requires Sound(s) && core < CORES
    ensures s.cores[core].priority < |s.lists| && (s.cores[core].task in s.idle ==> s.cores[core].priority == 0)
  {
    assert CoreOk(s, s.cores[core]);
  }

  /** A running task moved to another level. */
  lemma RelistFacts(s: System, core: nat, level: nat)
    requires Sound(s) && core < CORES && level < |s.lists|
    requires s.cores[core].task in s.idle ==> level == 0
    ensures var t, task := Relist(s, core, level), s.cores[core].task;
      && Sound(t) && t.idle == s.idle && |t.lists| == |s.lists|
      && t.cores == s.cores[core := s.cores[core].(priority := level)]
      && (forall u, m :: u != task ==> (Ready(t, u, m) <==> Ready(s, u, m)))
      && (forall m :: Ready(t, task, m) <==> m == level && Ready(s, task, s.cores[core].priority))
  {
    var task, p := s.cores[core].task, s.cores[core].priority;
    assert CoreOk(s, s.cores[0]) && CoreOk(s, s.cores[1]);
    var t := Relist(s, core, level);
    if Ready(s, task, p) {
      RelistReady(s, core, level);
      hide Listed, AddReady, RemoveReady;
      assert CoreOk(t, t.cores[0]) && CoreOk(t, t.cores[1]);
    } else {
      hide Listed;
      assert forall u, m :: Ready(t, u, m) <==> Ready(s, u, m);
      assert CoreOk(t, t.cores[0]) && CoreOk(t, t.cores[1]);
    }
  }

  lemma RelistReady(s: System, core: nat, level: nat)
    requires Sound(s) && core < CORES && level < |s.lists| && s.cores[core].priority < |s.lists|
    requires Ready(s, s.cores[core].task, s.cores[core].priority)
    ensures var t, task := Relist(s, core, level), s.cores[core].task;
      && Listed(t.lists) && |t.lists| == |s.lists| && t.idle == s.idle && t.top == (if level > s.top then level else s.top)
      && t.cores == s.cores[core := s.cores[core].(priority := level)]
      && forall u, m :: Ready(t, u, m) <==> (Ready(s, u, m) && u != task) || (u == task && m == level)
  {
    var task, p := s.cores[core].task, s.cores[core].priority;
    var r := RemoveReady(s, task, p);
    assert forall l :: Ready(s, task, l) ==> l == p;
    RemoveFacts(s, task, p);
    Reshelved(s, task, p);
    hide RemoveReady, Listed;
    assert forall l :: 0 <= l < |r.lists| && task in r.lists[l] ==> Ready(r, task, l);
    AddKeepsListed(r.lists, task, level);
    var t := Relist(s, core, level);
    forall u, m ensures Ready(t, u, m) <==> Ready(r, u, m) || (u == task && m == level) {
    }
  }

  lemma DemotedKeeps(s: System, core: nat, level: nat, me: nat)
    requires Sound(s) && Covered(s) && core < CORES && me < CORES && level < s.cores[core].priority
    ensures Sound(After(s, Demoted(core, level, me))) && Covered(After(s, Demoted(core, level, me)))
  {
    hide Listed, Relist, CoreOk, Defended;
    CoreFacts(s, core);
    RelistFacts(s, core, level);
    var r := Relist(s, core, level);
    YieldCoreKeepsSound(r, me, core);
    var t := YieldUnasked(r, me, core);
    assert forall u, m :: Ready(t, u, m) <==> Ready(r, u, m);
    AskedDefends(s, t, core, 0);
    AskedDefends(s, t, core, 1);
  }

  lemma RaisedIsAlmost(s: System, core: nat, level: nat, o: nat)
    requires Sound(s) && Covered(s) && core < CORES && s.cores[core].priority < level < |s.lists| && o < CORES
    requires s.cores[core].task !in s.idle
    ensures |Relist(s, core, level).cores| == CORES
    ensures DefendedBut(Relist(s, core, level), o, 1 - o, s.cores[core].task)
  {
    RelistFacts(s, core, level);
    hide Listed, Relist, CoreOk;
    var r, c, task := Relist(s, core, level), 1 - o, s.cores[core].task;
    assert Defended(s, o, c);
    assert forall u, m :: Free(r, u, m) ==> Free(s, u, m);
    assert forall u, m :: OldThreat(r, o, c, task, u, m) ==> Threatens(s, o, c, u, m);
  }

  lemma RaiseKeepsSound(s: System, core: nat, level: nat, me: nat)
    requires Sound(s) && Possible(s, Promoted(core, level, me))
    ensures Sound(Raise(s, core, level, me))
  {
    RelistFacts(s, core, level);
    hide Sound, Relist, YieldForTask;
    YieldKeepsSound(Relist(s, core, level), me, s.cores[core].task, level);
  }

  /** Raising what a core runs leaves both cores defended exactly where it is not squeezed: the switch
      that core owes takes one task above what the other runs, and one would be left. */
  lemma PromotedIsCovered(s: System, core: nat, level: nat, me: nat)
    requires Sound(s) && Covered(s) && Possible(s, Promoted(core, level, me))
    ensures Sound(After(s, Promoted(core, level, me)))
    ensures Covered(After(s, Promoted(core, level, me))) <==> !Crowds(s, Promoted(core, level, me))
  {
    assert CoreOk(s, s.cores[core]);
    RaiseKeepsSound(s, core, level, me);
    hide Listed, CoreOk, Raise, Squeezed, Covered, Free;
    RaiseIsCovered(s, core, level, me);
  }

  lemma RaiseIsCovered(s: System, core: nat, level: nat, me: nat)
    requires Sound(s) && Covered(s) && Possible(s, Promoted(core, level, me))
    ensures |Raise(s, core, level, me).cores| == CORES
    ensures Covered(Raise(s, core, level, me))
      <==> !(Ready(s, s.cores[core].task, s.cores[core].priority) && Squeezed(s, core, level))
  {
    var r, task := Relist(s, core, level), s.cores[core].task;
    RelistFacts(s, core, level);
    SameSqueeze(s, r, core, level);
    hide Listed, Relist, DefendedBut, YieldForTask, Squeezed, CoreOk, Free;
    RaisedIsAlmost(s, core, level, 0);
    RaisedIsAlmost(s, core, level, 1);
    if Ready(s, task, s.cores[core].priority) {
      YieldCovers(r, me, task, level);
    } else {
      NotReadyIsNoThreat(r, task, 0);
      NotReadyIsNoThreat(r, task, 1);
    }
  }

  lemma SameSqueeze(s: System, r: System, core: nat, level: nat)
    requires core < |s.cores| == CORES && r.cores == s.cores[core := s.cores[core].(priority := level)]
    requires forall u, m :: u != s.cores[core].task ==> (Ready(r, u, m) <==> Ready(s, u, m))
    ensures Squeezed(r, core, level) <==> Squeezed(s, core, level)
  {
    assert forall u, m :: Free(r, u, m) <==> Free(s, u, m);
  }

  /** A change of priority that asks the task's own core. */
  lemma RestoredIsCovered(s: System, core: nat, level: nat, me: nat)
    requires Sound(s) && Covered(s) && Possible(s, Restored(core, level, me))
    ensures Sound(After(s, Restored(core, level, me)))
    ensures Covered(After(s, Restored(core, level, me))) <==> !Crowds(s, Restored(core, level, me))
  {
    hide Listed, Relist, CoreOk;
    CoreFacts(s, core);
    RelistFacts(s, core, level);
    var o, task := 1 - core, s.cores[core].task;
    var t := Restore(s, core, level, me);
    RestoredFacts(s, core, level, me);
    assert forall u, m :: Free(t, u, m) <==> Free(s, u, m);
    assert Defended(s, o, core) && Defended(t, core, o);
    if !s.cores[o].Flagged() {
      assert forall u, m :: Threatens(t, o, core, u, m) ==> u == task || (Free(s, u, m) && Threatens(s, o, core, u, m));
      if Crowds(s, Restored(core, level, me)) {
        var u, m :| Free(s, u, m) && m > s.cores[o].priority;
        assert Threatens(t, o, core, u, m) && Threatens(t, o, core, task, level);
      }
    }
  }

  lemma RestoredFacts(s: System, core: nat, level: nat, me: nat)
    requires Sound(s) && Possible(s, Restored(core, level, me))
    ensures s.cores[core].priority < |s.lists|
    ensures var t, task := Restore(s, core, level, me), s.cores[core].task;
      && Sound(t) && t.idle == s.idle && t.cores[core].Flagged() && t.cores[1 - core] == s.cores[1 - core]
      && t.cores[core].task == task && t.cores[core].priority == level
      && (forall u, m :: u != task ==> (Ready(t, u, m) <==> Ready(s, u, m)))
      && (forall m :: Ready(t, task, m) <==> m == level && Ready(s, task, s.cores[core].priority))
  {
    hide Listed, Relist;
    assert CoreOk(s, s.cores[core]);
    RelistFacts(s, core, level);
    YieldCoreKeepsSound(Relist(s, core, level), me, core);
  }

  lemma NotReadyIsNoThreat(r: System, task: TaskId, o: nat)
    requires |r.cores| == CORES && o < CORES && DefendedBut(r, o, 1 - o, task) && forall m :: !Ready(r, task, m)
    ensures Defended(r, o, 1 - o)
  {
    var c := 1 - o;
    assert forall u, m :: Threatens(r, o, c, u, m) ==> OldThreat(r, o, c, task, u, m);
  }

  // ------------------------------------------------------ over whole runs --

  /** A step keeps the lists, the cores and the idle tasks in order, crowded or not. */
  lemma StepKeepsSound(s: System, e: Event)
    requires Sound(s) && IdleReady(s) && Possible(s, e)
    ensures Sound(After(s, e)) && IdleReady(After(s, e))
  {
    hide Listed, Relist, RemoveReady, AddReady, YieldForTask, YieldCore, Switch, CoreOk, Raise, Place;
    var t := After(s, e);
    match e {
      case Readied(task, level, me) =>
        AddKeepsSound(s, task, level);
        YieldKeepsSound(AddReady(s, task, level), me, task, level);
      case Removed(task, level) => RemovedIsSound(s, task, level);
      case Lowered(task, from, level) =>
        FreeBelow(s, task, from, level);
        RelevelledIsSound(s, task, from, level);
      case Lifted(task, from, level) => RelevelledIsSound(s, task, from, level);
      case Placed(task, level) => PlaceFacts(s, task, level);
      case Sought(task, level, me) => YieldKeepsSound(s, me, task, level);
      case Blocked(core, me) => BlockedIsSound(s, core, me);
      case Demoted(core, level, me) =>
        CoreFacts(s, core);
        RelistFacts(s, core, level);
        YieldCoreKeepsSound(Relist(s, core, level), me, core);
      case Promoted(core, level, me) =>
        RaiseKeepsSound(s, core, level, me);
      case Restored(core, level, me) => RestoredFacts(s, core, level, me);
      case Vacated(task) => VacatedIsSound(s, task);
      case Asked(core, me) => YieldCoreKeepsSound(s, me, core);
      case Switched(core) =>
        IdleMeansNoStall(s, core);
        SwitchKeepsSound(s, core);
    }
    StepKeepsIdle(s, e);
  }

  lemma YieldMovesNobody(r: System, me: nat, task: TaskId, level: nat)
    ensures var t := YieldForTask(r, me, task, level);
      && t.lists == r.lists && t.idle == r.idle && t.vacant == r.vacant && t.top == r.top && |t.cores| == |r.cores|
      && forall c :: 0 <= c < |r.cores| ==> t.cores[c].task == r.cores[c].task
  {
    hide Scan;
  }

  lemma VacancyStays(s: System, e: Event)
    requires |s.cores| == CORES
    ensures After(s, e).vacant == (if e.Vacated? then s.vacant + {e.task} else s.vacant) && After(s, e).idle == s.idle
  {
    hide Scan, Without, MoveToEnd, Pick, TopAfter;
  }

  lemma StepKeepsIdle(s: System, e: Event)
    requires Sound(s) && IdleReady(s) && Possible(s, e)
    ensures After(s, e).idle == s.idle && forall i :: i in s.idle ==> Ready(After(s, e), i, 0)
  {
    hide Listed, RemoveReady, YieldForTask, Switch, CoreOk, Place;
    match e {
      case Readied(task, level, me) => YieldMovesNobody(AddReady(s, task, level), me, task, level);
      case Removed(task, level) =>
        RemovedIsSound(s, task, level);
        Reshelved(s, task, level);
      case Lowered(task, from, level) =>
        FreeBelow(s, task, from, level);
        RelevelledIsSound(s, task, from, level);
      case Lifted(task, from, level) => RelevelledIsSound(s, task, from, level);
      case Placed(task, level) => PlaceFacts(s, task, level);
      case Sought(task, level, me) => YieldMovesNobody(s, me, task, level);
      case Blocked(core, me) => BlockedIsSound(s, core, me);
      case Demoted(core, level, me) =>
        CoreFacts(s, core);
        RelistFacts(s, core, level);
        hide Relist;
        assert forall u, m :: Ready(After(s, e), u, m) <==> Ready(Relist(s, core, level), u, m);
      case Promoted(core, level, me) =>
        RelistFacts(s, core, level);
        hide Relist;
        YieldMovesNobody(Relist(s, core, level), me, s.cores[core].task, level);
      case Restored(core, level, me) => RestoredFacts(s, core, level, me);
      case Vacated(task) => VacatedIsSound(s, task);
      case Asked(core, me) =>
      case Switched(core) => SwitchPicksHighest(s, core);
    }
  }

  ghost predicate IsReady(s: System, task: TaskId) { exists l :: Ready(s, task, l) }

  predicate Unreadies(s: System, e: Event, task: TaskId)
    requires |s.cores| == CORES
  {
    match e
    case Removed(u, _) => u == task
    case Vacated(u) => u == task
    case Blocked(core, _) => core < CORES && task == s.cores[core].task
    case _ => false
  }

  /** Exactly one task can become ready or stop being so in a step, and a core takes over only by a switch,
      and only what is ready. */
  lemma StepMoves(s: System, e: Event)
    requires Sound(s) && IdleReady(s) && Possible(s, e)
    ensures forall u :: IsReady(After(s, e), u) <==>
      (IsReady(s, u) && !Unreadies(s, e, u)) || ((e.Readied? || e.Placed?) && u == e.task)
    ensures forall c :: 0 <= c < CORES ==>
      var task := After(s, e).cores[c].task; task == s.cores[c].task || (e == Switched(c) && IsReady(s, task))
  {
    hide Listed, RemoveReady, YieldForTask, Switch, IdleReady, Relist, YieldUnasked, Raise, Restore, Relevel, Place, AddReady, CoreOk;
    match e {
      case Readied(task, level, me) => ReadiedMoves(s, task, level, me);
      case Removed(task, level) => RemovedIsSound(s, task, level);
      case Lowered(task, from, level) =>
        FreeBelow(s, task, from, level);
        RelevelMoves(s, task, from, level);
      case Lifted(task, from, level) => RelevelMoves(s, task, from, level);
      case Placed(task, level) => PlacedMoves(s, task, level);
      case Sought(task, level, me) => SoughtMoves(s, task, level, me);
      case Blocked(core, me) => BlockedIsSound(s, core, me);
      case Demoted(core, level, me) => RelistedMoves(s, core, level, me);
      case Promoted(core, level, me) => RaiseMoves(s, core, level, me);
      case Restored(core, level, me) => RestoredMoves(s, core, level, me);
      case Vacated(task) => VacatedIsSound(s, task);
      case Asked(core, me) => YieldCoreKeepsSound(s, me, core);
      case Switched(core) => SwitchedMoves(s, core);
    }
  }

  lemma RelistedMoves(s: System, core: nat, level: nat, me: nat)
    requires Sound(s) && core < CORES && me < CORES && Possible(s, Demoted(core, level, me))
    ensures s.cores[core].priority < |s.lists| && level < |s.lists|
    ensures var t := YieldUnasked(Relist(s, core, level), me, core);
      && (forall u :: IsReady(t, u) <==> IsReady(s, u))
      && |t.cores| == CORES && forall c :: 0 <= c < CORES ==> t.cores[c].task == s.cores[c].task
  {
    hide Listed, Relist, CoreOk;
    CoreFacts(s, core);
    RelistMoves(s, core, level);
    var t := YieldUnasked(Relist(s, core, level), me, core);
    assert forall u, m :: Ready(t, u, m) <==> Ready(Relist(s, core, level), u, m);
  }

  lemma RaiseMoves(s: System, core: nat, level: nat, me: nat)
    requires Sound(s) && Possible(s, Promoted(core, level, me))
    ensures s.cores[core].priority < |s.lists|
    ensures var t := Raise(s, core, level, me);
      && (forall u :: IsReady(t, u) <==> IsReady(s, u))
      && |t.cores| == CORES && forall c :: 0 <= c < CORES ==> t.cores[c].task == s.cores[c].task
  {
    hide Listed, Relist, CoreOk, YieldForTask;
    CoreFacts(s, core);
    RelistMoves(s, core, level);
    YieldMovesNobody(Relist(s, core, level), me, s.cores[core].task, level);
    var t := Raise(s, core, level, me);
    assert forall u, m :: Ready(t, u, m) <==> Ready(Relist(s, core, level), u, m);
  }

  lemma RestoredMoves(s: System, core: nat, level: nat, me: nat)
    requires Sound(s) && Possible(s, Restored(core, level, me))
    ensures s.cores[core].priority < |s.lists|
    ensures var t := Restore(s, core, level, me);
      && (forall u :: IsReady(t, u) <==> IsReady(s, u))
      && |t.cores| == CORES && forall c :: 0 <= c < CORES ==> t.cores[c].task == s.cores[c].task
  {
    hide Listed, Restore;
    RestoredFacts(s, core, level, me);
    var t, task := Restore(s, core, level, me), s.cores[core].task;
    assert CoreOk(s, s.cores[core]);
    assert Ready(t, task, level) <==> Ready(s, task, s.cores[core].priority);
  }

  lemma ReadiedMoves(s: System, task: TaskId, level: nat, me: nat)
    requires Sound(s) && Possible(s, Readied(task, level, me))
    ensures var t := After(s, Readied(task, level, me));
      && (forall u :: IsReady(t, u) <==> IsReady(s, u) || u == task)
      && forall c :: 0 <= c < CORES ==> t.cores[c].task == s.cores[c].task
  {
    var r, t := AddReady(s, task, level), After(s, Readied(task, level, me));
    AddKeepsSound(s, task, level);
    YieldMovesNobody(r, me, task, level);
    hide Listed, CoreOk, YieldForTask;
    assert forall u, m :: Ready(t, u, m) <==> Ready(r, u, m);
    assert Ready(t, task, level);
  }

  lemma RelevelMoves(s: System, task: TaskId, from: nat, level: nat)
    requires Sound(s) && Free(s, task, from) && level < |s.lists| && (task in s.idle ==> level == 0)
    ensures var t := Relevel(s, task, from, level); t.cores == s.cores && forall u :: IsReady(t, u) <==> IsReady(s, u)
  {
    hide Listed, CoreOk, Relevel;
    RelevelledIsSound(s, task, from, level);
    var t := Relevel(s, task, from, level);
    assert Ready(t, task, level) && Ready(s, task, from);
  }

  lemma PlacedMoves(s: System, task: TaskId, level: nat)
    requires Sound(s) && Possible(s, Placed(task, level))
    ensures level < |s.lists|
    ensures var t := Place(s, task, level); t.cores == s.cores && forall u :: IsReady(t, u) <==> IsReady(s, u) || u == task
  {
    PlaceFacts(s, task, level);
    hide Sound, Place, Possible, Ready;
    assert Ready(Place(s, task, level), task, level);
  }

  lemma SoughtMoves(s: System, task: TaskId, level: nat, me: nat)
    ensures var t := YieldForTask(s, me, task, level);
      && (forall u :: IsReady(t, u) <==> IsReady(s, u))
      && |t.cores| == |s.cores| && forall c :: 0 <= c < |s.cores| ==> t.cores[c].task == s.cores[c].task
  {
    hide YieldForTask;
    YieldMovesNobody(s, me, task, level);
    assert forall u, m :: Ready(YieldForTask(s, me, task, level), u, m) <==> Ready(s, u, m);
  }

  lemma RelistMoves(s: System, core: nat, level: nat)
    requires Sound(s) && core < CORES && level < |s.lists|
    requires s.cores[core].priority < |s.lists| && (s.cores[core].task in s.idle ==> level == 0)
    ensures var t := Relist(s, core, level);
      && (forall u :: IsReady(t, u) <==> IsReady(s, u))
      && |t.cores| == CORES && forall c :: 0 <= c < CORES ==> t.cores[c].task == s.cores[c].task
  {
    RelistFacts(s, core, level);
    var t, task, p := Relist(s, core, level), s.cores[core].task, s.cores[core].priority;
    assert CoreOk(s, s.cores[core]);
    hide Listed, Relist;
    assert Ready(t, task, level) <==> Ready(s, task, p);
  }

  lemma SwitchedMoves(s: System, core: nat)
    requires Sound(s) && IdleReady(s) && core < CORES
    ensures var t := After(s, Switched(core));
      && (forall u :: IsReady(t, u) <==> IsReady(s, u))
      && t.cores[1 - core] == s.cores[1 - core] && IsReady(s, t.cores[core].task)
  {
    hide Listed, Switch, IdleReady;
    IdleMeansNoStall(s, core);
    SwitchPicksHighest(s, core);
    var t := After(s, Switched(core));
    assert CoreOk(s, s.cores[core]);
    assert Ready(s, t.cores[core].task, t.cores[core].priority);
  }

  /** A step that does not crowd keeps both cores defended, and a step that does never does. */
  lemma StepKeeps(s: System, e: Event)
    requires Sound(s) && Covered(s) && IdleReady(s) && Possible(s, e)
    ensures Sound(After(s, e)) && IdleReady(After(s, e))
    ensures Covered(After(s, e)) <==> !Crowds(s, e)
  {
    hide Listed, Covered, Relist, RemoveReady, AddReady, YieldForTask, YieldCore, Switch, CoreOk, IdleReady, Place;
    StepKeepsSound(s, e);
    match e {
      case Readied(task, level, me) => ReadiedIsCovered(s, me, task, level);
      case Removed(task, level) => RemovedKeeps(s, task, level);
      case Lowered(task, from, level) => LoweredKeeps(s, task, from, level);
      case Lifted(task, from, level) => LiftedIsCovered(s, task, from, level);
      case Placed(task, level) => PlacedIsCovered(s, task, level);
      case Sought(task, level, me) => SoughtKeeps(s, task, level, me);
      case Blocked(core, me) => BlockedKeeps(s, core, me);
      case Demoted(core, level, me) => DemotedKeeps(s, core, level, me);
      case Promoted(core, level, me) => PromotedIsCovered(s, core, level, me);
      case Restored(core, level, me) => RestoredIsCovered(s, core, level, me);
      case Vacated(task) => VacatedKeeps(s, task);
      case Asked(core, me) => AskedKeeps(s, core, me);
      case Switched(core) =>
        IdleMeansNoStall(s, core);
        SwitchKeeps(s, core);
    }
  }

  ghost predicate CanRun(s: System, events: seq<Event>)
    requires Sound(s) && IdleReady(s)
    decreases |events|
  {
    events == [] || (Possible(s, events[0]) && (StepKeepsSound(s, events[0]); CanRun(After(s, events[0]), events[1..])))
  }

  ghost function Run(s: System, events: seq<Event>): System
    requires Sound(s) && IdleReady(s) && CanRun(s, events)
    decreases |events|
  {
    if events == [] then s else
      StepKeepsSound(s, events[0]);
      Run(After(s, events[0]), events[1..])
  }

  /** No step of the history crowds. */
  ghost predicate Roomy(s: System, events: seq<Event>)
    requires Sound(s) && IdleReady(s) && CanRun(s, events)
    decreases |events|
  {
    events == [] || (!Crowds(s, events[0]) && (StepKeepsSound(s, events[0]); Roomy(After(s, events[0]), events[1..])))
  }

  /** Two-core scheduling is optimal whenever it is settled: after any history without crowding, once no
      core owes a switch, no ready task that no core holds outranks what either core runs. */
  lemma {:induction false} SettledMeansOptimal(s: System, events: seq<Event>)
    requires Sound(s) && IdleReady(s) && Covered(s) && CanRun(s, events) && Roomy(s, events)
    ensures var t := Run(s, events);
      Sound(t) && IdleReady(t) && Covered(t) && (!t.cores[0].Flagged() && !t.cores[1].Flagged() ==> Optimal(t))
    decreases |events|
  {
    hide Covered, Optimal, Possible, After, Crowds, Listed, CoreOk, IdleReady;
    if events == [] {
      if !s.cores[0].Flagged() && !s.cores[1].Flagged() { SettledIsOptimal(s); }
    } else {
      StepKeeps(s, events[0]);
      SettledMeansOptimal(After(s, events[0]), events[1..]);
    }
  }

  /** The switch a core owes, if it owes one. */
  function Paid(s: System, core: nat): System
    requires core < |s.cores| == CORES && s.cores[core].priority < |s.lists| && s.top < |s.lists|
  {
    if s.cores[core].Flagged() then Switch(s, core).0 else s
  }

  lemma PaidIsSound(s: System, core: nat)
    requires Sound(s) && IdleReady(s) && core < CORES
    ensures Sound(Paid(s, core)) && IdleReady(Paid(s, core)) && !Paid(s, core).cores[core].Flagged()
    ensures Paid(s, core).cores[1 - core] == s.cores[1 - core]
    ensures forall u, l :: Ready(Paid(s, core), u, l) <==> Ready(s, u, l)
  {
    hide Switch, Listed;
    if s.cores[core].Flagged() {
      SwitchPicksHighest(s, core);
      IdleMeansNoStall(s, core);
      SwitchKeepsSound(s, core);
    }
  }

  /** Where the switches owed lead, one core's first. */
  ghost function Settled(s: System, first: nat): System
    requires Sound(s) && IdleReady(s) && first < CORES
  {
    PaidIsSound(s, first);
    Paid(Paid(s, first), 1 - first)
  }

  /** Settling takes one switch of each core that owes one, in either order. */
  lemma SwitchesSettle(s: System, first: nat)
    requires Sound(s) && IdleReady(s) && first < CORES
    ensures var end := Settled(s, first);
      Sound(end) && IdleReady(end) && !end.cores[0].Flagged() && !end.cores[1].Flagged()
  {
    hide Switch, Listed, Paid, IdleReady;
    PaidIsSound(s, first);
    PaidIsSound(Paid(s, first), 1 - first);
  }

  /** The defence is exactly what makes that optimal, whichever core switches first. */
  lemma CoveredIsSettling(s: System, first: nat)
    requires Sound(s) && IdleReady(s) && first < CORES
    ensures Covered(s) <==> Optimal(Settled(s, first))
  {
    hide Switch, Covered, Optimal, Listed, IdleReady;
    SwitchesSettle(s, first);
    if Covered(s) {
      PaidIsSound(s, first);
      PaidIsCovered(s, first);
      PaidIsCovered(Paid(s, first), 1 - first);
      SettledIsOptimal(Settled(s, first));
    } else {
      assert !Defended(s, 0, 1) || !Defended(s, 1, 0) by { Uncovered(s); }
      if !Defended(s, 0, 1) { OneIsLeft(s, first, 0); } else { OneIsLeft(s, first, 1); }
    }
  }

  lemma Uncovered(s: System)
    requires |s.cores| == CORES && !Covered(s)
    ensures !Defended(s, 0, 1) || !Defended(s, 1, 0)
  {
  }

  lemma PaidIsCovered(s: System, core: nat)
    requires Sound(s) && IdleReady(s) && Covered(s) && core < CORES
    ensures Covered(Paid(s, core))
  {
    hide Switch, Covered, Listed;
    IdleMeansNoStall(s, core);
    if s.cores[core].Flagged() { SwitchKeeps(s, core); }
  }

  /** Two threats to a core that owes nothing, and one switch by the other: one is left. */
  lemma OneIsLeft(s: System, first: nat, o: nat)
    requires Sound(s) && IdleReady(s) && first < CORES && o < CORES && !Defended(s, o, 1 - o)
    ensures !Optimal(Settled(s, first))
  {
    hide Switch, Listed, IdleReady;
    var c, end := 1 - o, Settled(s, first);
    PaidIsSound(s, c);
    assert Paid(s, o) == s;
    assert end == Paid(s, c) by { if first == c { assert !Paid(s, c).cores[o].Flagged(); } }
    hide Paid;
    if s.cores[c].Flagged() {
      var t, l, u, m :| Threatens(s, o, c, t, l) && Threatens(s, o, c, u, m) && t != u;
      assert Ready(end, t, l) && Ready(end, u, m);
      assert Free(end, t, l) || Free(end, u, m);
    } else {
      assert end == s by { StaysPut(s, c); }
      var t, l :| Free(s, t, l) && l > s.cores[o].priority;
    }
  }

  lemma StaysPut(s: System, core: nat)
    requires core < |s.cores| == CORES && s.cores[core].priority < |s.lists| && s.top < |s.lists|
    requires !s.cores[core].Flagged()
    ensures Paid(s, core) == s
  {
  }

  /** What the code meets exactly: from a defended state, the switches owed after a step lead to an optimal
      state, whichever comes first, if and only if the step did not crowd. */
  lemma StepSettles(s: System, e: Event, first: nat)
    requires Sound(s) && IdleReady(s) && Covered(s) && Possible(s, e) && first < CORES
    ensures Sound(After(s, e)) && IdleReady(After(s, e))
    ensures Optimal(Settled(After(s, e), first)) <==> !Crowds(s, e)
  {
    hide Covered, Optimal, Possible, After, Crowds, Listed, CoreOk, IdleReady, Settled;
    StepKeeps(s, e);
    CoveredIsSettling(After(s, e), first);
  }

  /** From a settled optimal state to one that is settled and not. */
  ghost predicate Strands(s: System, events: seq<Event>) {
    && Sound(s) && IdleReady(s) && Covered(s) && !s.cores[0].Flagged() && !s.cores[1].Flagged() && Optimal(s)
    && CanRun(s, events)
    && var t := Run(s, events); |t.cores| == CORES && !t.cores[0].Flagged() && !t.cores[1].Flagged() && !Optimal(t)
  }

  /** A history that crowds: task 3 becomes ready, which core 0 is to make way for; before it does, what it
      runs is raised to level 4.  Its switch keeps that, and task 3 is left above what core 1 runs. */
  lemma RaiseCrowdsOut()
    ensures Strands(Quiet(), [Readied(3, 3, 0), Promoted(0, 4, 0), Switched(0)])
  {
    hide After, Possible, Listed, CoreOk, Ready, IdleReady, Optimal, Covered, Quiet, Waiting, Raised, Left;
    var a, b, c := Readied(3, 3, 0), Promoted(0, 4, 0), Switched(0);
    QuietIsSettled();
    QuietReadied();
    WaitingRaised();
    RaisedSwitched();
    assert [c] + [] == [c] && [b] + [c] == [b, c] && [a] + [b, c] == [a, b, c];
    RunOne(Raised(), c, []);
    RunOne(Waiting(), b, [c]);
    RunOne(Quiet(), a, [b, c]);
  }

  lemma RunOne(s: System, e: Event, events: seq<Event>)
    requires Sound(s) && IdleReady(s) && Possible(s, e) && Sound(After(s, e)) && IdleReady(After(s, e))
    requires CanRun(After(s, e), events)
    ensures CanRun(s, [e] + events) && Run(s, [e] + events) == Run(After(s, e), events)
  {
    assert ([e] + events)[1..] == events;
  }

  function Quiet(): System {
    System([[8, 9], [1], [2], [], []], 2, [Core(1, 1, false, false), Core(2, 2, false, false)], {8, 9}, {})
  }

  function Waiting(): System {
    System([[8, 9], [1], [2], [3], []], 3, [Core(1, 1, true, false), Core(2, 2, false, false)], {8, 9}, {})
  }

  function Raised(): System {
    System([[8, 9], [], [2], [3], [1]], 4, [Core(1, 4, true, false), Core(2, 2, false, false)], {8, 9}, {})
  }

  function Left(): System {
    System([[8, 9], [], [2], [3], [1]], 4, [Core(1, 4, false, false), Core(2, 2, false, false)], {8, 9}, {})
  }

  lemma QuietReady(t: TaskId, l: int)
    ensures Ready(Quiet(), t, l) <==> (l == 0 && (t == 8 || t == 9)) || (l == 1 && t == 1) || (l == 2 && t == 2)
  {
  }

  lemma QuietIsSettled()
    ensures var s := Quiet();
      Sound(s) && IdleReady(s) && Covered(s) && !s.cores[0].Flagged() && !s.cores[1].Flagged() && Optimal(s)
  {
    var s := Quiet();
    forall t, l ensures Ready(s, t, l) <==> (l == 0 && (t == 8 || t == 9)) || (l == 1 && t == 1) || (l == 2 && t == 2) {
      QuietReady(t, l);
    }
    assert Listed(s.lists) by {
      assert forall l :: 0 <= l < 5 ==> Distinct(s.lists[l]);
      assert forall t, l :: 0 <= l < 5 && t in s.lists[l] ==> Ready(s, t, l);
    }
    hide Listed;
    assert s.cores == [Core(1, 1, false, false), Core(2, 2, false, false)] && s.idle == {8, 9} && s.top == 2 && s.vacant == {};
    hide Quiet, Ready;
    assert 8 in s.idle && 9 in s.idle;
    assert CoreOk(s, s.cores[0]) && CoreOk(s, s.cores[1]);
  }

  lemma QuietReadied()
    ensures Sound(Quiet()) && Possible(Quiet(), Readied(3, 3, 0)) && After(Quiet(), Readied(3, 3, 0)) == Waiting()
  {
    QuietIsSettled();
    hide Sound;
    var r := AddReady(Quiet(), 3, 3);
    assert [[8, 9], [1], [2], [], []][3] + [3] == [3];
    assert r.lists == Waiting().lists && r.top == 3;
    assert Scan(r, 3, 0) == (2, None) && Scan(r, 3, 1) == (1, Some(0)) && Scan(r, 3, 2) == (1, Some(0));
    assert !RunsUnasked(r, 3);
    assert YieldCore(r, 0, 0) == Waiting();
    forall l ensures !Ready(Quiet(), 3, l) {
      QuietReady(3, l);
    }
  }

  lemma WaitingRaised()
    ensures Sound(Waiting()) && IdleReady(Waiting())
    ensures Possible(Waiting(), Promoted(0, 4, 0)) && After(Waiting(), Promoted(0, 4, 0)) == Raised()
  {
    QuietIsSettled();
    QuietReadied();
    StepKeepsSound(Quiet(), Readied(3, 3, 0));
    hide Sound, IdleReady, Quiet;
    var s := Waiting();
    assert Without([1], 1) == [1][1..] == [] && [] + [1] == [1];
    assert RemoveReady(s, 1, 1).lists == [[8, 9], [], [2], [3], []];
    assert Relist(s, 0, 4) == Raised();
    assert RunsUnasked(Raised(), 1) by { assert Raised().cores[0].task == 1; }
  }

  lemma RaisedSwitched()
    ensures Sound(Raised()) && IdleReady(Raised())
    ensures Possible(Raised(), Switched(0)) && After(Raised(), Switched(0)) == Left()
    ensures var t := Left();
      Sound(t) && IdleReady(t) && !t.cores[0].Flagged() && !t.cores[1].Flagged() && !Optimal(t)
  {
    hide Sound, IdleReady, Waiting;
    WaitingRaised();
    StepKeepsSound(Waiting(), Promoted(0, 4, 0));
    StepKeepsSound(Raised(), Switched(0));
    assert Without([1], 1) == [1][1..] == [] && MoveToEnd([1], 1) == [1];
    assert Free(Left(), 3, 3);
  }

  function Sharing(): System {
    System([[8, 9], [1, 5], [2], [], []], 2, [Core(1, 1, false, false), Core(2, 2, false, false)], {8, 9}, {})
  }

  lemma SharingReady(t: TaskId, l: int)
    ensures Ready(Sharing(), t, l) <==> (l == 0 && (t == 8 || t == 9)) || (l == 1 && (t == 1 || t == 5)) || (l == 2 && t == 2)
  {
  }

  lemma SharingIsSettled()
    ensures var s := Sharing();
      Sound(s) && IdleReady(s) && Covered(s) && !s.cores[0].Flagged() && !s.cores[1].Flagged() && Optimal(s)
  {
    var s := Sharing();
    forall t, l
      ensures Ready(s, t, l) <==> (l == 0 && (t == 8 || t == 9)) || (l == 1 && (t == 1 || t == 5)) || (l == 2 && t == 2)
    {
      SharingReady(t, l);
    }
    assert Listed(s.lists) by {
      assert forall l :: 0 <= l < 5 ==> Distinct(s.lists[l]);
      assert forall t, l :: 0 <= l < 5 && t in s.lists[l] ==> Ready(s, t, l);
    }
    hide Listed;
    assert s.cores == [Core(1, 1, false, false), Core(2, 2, false, false)] && s.idle == {8, 9} && s.top == 2 && s.vacant == {};
    hide Sharing, Ready;
    assert 8 in s.idle && 9 in s.idle;
    assert CoreOk(s, s.cores[0]) && CoreOk(s, s.cores[1]);
  }

  /** And one of a single step: task 5, ready and free at level 1, holds a mutex whose waiter times out, and
      those still waiting raise it to level 3, with no core asked. */
  lemma LiftOvertakes()
    ensures Strands(Sharing(), [Lifted(5, 1, 3)])
  {
    hide After, Listed, CoreOk, IdleReady, Optimal, Covered, Sharing;
    SharingIsSettled();
    SharingLifted();
    var e := Lifted(5, 1, 3);
    assert [e] + [] == [e];
    StepKeepsSound(Sharing(), e);
    RunOne(Sharing(), e, []);
  }

  lemma SharingLifted()
    ensures var s, e := Sharing(), Lifted(5, 1, 3);
      && Sound(s) && Possible(s, e) && var t := After(s, e);
      !t.cores[0].Flagged() && !t.cores[1].Flagged() && !Optimal(t)
  {
    SharingIsSettled();
    SharingReady(5, 1);
    var s := Sharing();
    assert Free(s, 5, 1) && 5 !in s.idle;
    RelevelledIsSound(s, 5, 1, 3);
    hide Sound, Relevel;
    var t := Relevel(s, 5, 1, 3);
    assert Free(t, 5, 3);
  }

  // ------------------------------------------------------ the tick's part --

  /** `tick_time_slice_smp`, of the first n cores: a core whose level has a second ready task owes a
      switch. */
  function TimeSliced(s: System, n: nat): System
    requires n <= |s.cores|
    ensures |TimeSliced(s, n).cores| == |s.cores|
  {
    if n == 0 then s else
      var t, p := TimeSliced(s, n - 1), s.cores[n - 1].priority;
      if p < |s.lists| && |s.lists[p]| > 1 then YieldCore(t, n - 1, n - 1) else t
  }

  /** `tick_yields_smp`, of the first n cores: of those that owe a switch, the others are interrupted. */
  function Interrupted(s: System, me: nat, n: nat): System
    requires n <= |s.cores|
    ensures |Interrupted(s, me, n).cores| == |s.cores|
  {
    if n == 0 then s else
      var t := Interrupted(s, me, n - 1);
      if s.cores[n - 1].pending && n - 1 != me then YieldCore(t, me, n - 1) else t
  }

  /** The tick's slicing and interrupts keep both cores defended; every core that shares its level owes
      a switch then, and every other core that owes one has been asked for it. */
  lemma {:induction false} TickKeeps(s: System, me: nat, n: nat)
    requires Sound(s) && Covered(s) && me < CORES && n <= CORES
    ensures Sound(TimeSliced(s, n)) && Covered(TimeSliced(s, n))
    ensures Sound(Interrupted(s, me, n)) && Covered(Interrupted(s, me, n))
    ensures forall c :: 0 <= c < n && |s.lists[s.cores[c].priority]| > 1 ==> TimeSliced(s, n).cores[c].pending
    ensures forall c :: 0 <= c < n && s.cores[c].pending && c != me ==> Interrupted(s, me, n).cores[c].requested
  {
    hide Covered, Listed;
    if n > 0 {
      TickKeeps(s, me, n - 1);
      AskedKeeps(TimeSliced(s, n - 1), n - 1, n - 1);
      AskedKeeps(Interrupted(s, me, n - 1), n - 1, me);
    }
  }

  // ------------------------------------------------------------ fairness --

  function Others(list: seq<TaskId>, skip: set<TaskId>): seq<TaskId> {
    if list == [] then [] else (if list[0] in skip then [] else [list[0]]) + Others(list[1..], skip)
  }

  /** Who takes turns on a core: the tasks of its level that the other core does not hold. */
  function Line(s: System, core: nat): seq<TaskId>
    requires core < |s.cores| == CORES && s.cores[core].priority < |s.lists|
  {
    Others(s.lists[s.cores[core].priority], Skipped(s, core))
  }

  /** The core runs a task of the highest level that has any for it. */
  ghost predicate Turns(s: System, core: nat) {
    && Sound(s) && core < CORES
    && Ready(s, s.cores[core].task, s.cores[core].priority)
    && forall u, m :: Ready(s, u, m) && u != s.cores[1 - core].task ==> m <= s.cores[core].priority
  }

  lemma {:induction false} OthersJoin(a: seq<TaskId>, b: seq<TaskId>, skip: set<TaskId>)
    ensures Others(a + b, skip) == Others(a, skip) + Others(b, skip)
  {
    if a == [] {
      assert a + b == b;
    } else {
      assert (a + b)[1..] == a[1..] + b;
      OthersJoin(a[1..], b, skip);
    }
  }

  lemma {:induction false} OthersWithout(list: seq<TaskId>, task: TaskId, skip: set<TaskId>)
    requires task !in skip
    ensures Others(Without(list, task), skip) == Without(Others(list, skip), task)
  {
    if list != [] {
      OthersWithout(list[1..], task, skip);
      var rest := Others(list[1..], skip);
      if list[0] in skip {
        assert Others(list, skip) == rest;
      } else {
        assert Others(list, skip) == [list[0]] + rest && ([list[0]] + rest)[1..] == rest;
      }
    }
  }

  lemma {:induction false} FirstOfOthers(list: seq<TaskId>, skip: set<TaskId>)
    ensures FirstNot(list, skip) == if Others(list, skip) == [] then None else Some(Others(list, skip)[0])
  {
    if list != [] { FirstOfOthers(list[1..], skip); }
  }

  lemma {:induction false} PickAtLevel(lists: seq<seq<TaskId>>, from: nat, level: nat, skip: set<TaskId>)
    requires level <= from < |lists| && FirstNot(lists[level], skip).Some?
    requires forall m :: level < m <= from ==> FirstNot(lists[m], skip).None?
    ensures Pick(lists, from, skip) == Some((level, FirstNot(lists[level], skip).value))
  {
    if from > level { PickAtLevel(lists, from - 1, level, skip); }
  }

  /** A switch sends the runner to the back of the line and runs its front. */
  lemma SwitchTurns(s: System, core: nat)
    requires Turns(s, core)
    ensures var (t, ok) := Switch(s, core);
      && ok && Turns(t, core)
      && t.cores[1 - core] == s.cores[1 - core] && t.cores[core].priority == s.cores[core].priority
      && Line(t, core) == Without(Line(s, core), s.cores[core].task) + [s.cores[core].task]
      && t.cores[core].task == Line(t, core)[0]
  {
    var mine, skip, level := s.cores[core].task, Skipped(s, core), s.cores[core].priority;
    var lists := Rotated(s, core);
    SwitchPicksHighest(s, core);
    assert CoreOk(s, s.cores[core]);
    SwitchKeepsSound(s, core);
    OthersJoin(Without(s.lists[level], mine), [mine], skip);
    OthersWithout(s.lists[level], mine, skip);
    assert mine !in skip && Others([mine], skip) == [mine] + Others([], skip) == [mine];
    var line := Others(lists[level], skip);
    assert line == Without(Line(s, core), mine) + [mine];
    FirstOfOthers(lists[level], skip);
    forall m | level < m <= s.top ensures FirstNot(lists[m], skip).None? {
      FirstNotFacts(s.lists[m], skip);
      assert lists[m] == s.lists[m];
      assert forall u :: u in s.lists[m] && u !in s.vacant ==> Ready(s, u, m);
    }
    assert level <= s.top;
    hide Sound, Listed;
    PickAtLevel(lists, s.top, level, skip);
  }

  function Switches(s: System, core: nat, k: nat): System
    requires core < CORES
  {
    if k == 0 then s else
      var t := Switches(s, core, k - 1);
      if |t.cores| == CORES && t.cores[core].priority < |t.lists| && t.top < |t.lists| then Switch(t, core).0 else t
  }

  /** With the other core's task and the top level unchanged, one core's switches go through its line
      in order, and the line is itself again when everybody in it has had a turn. */
  lemma {:induction false} EverybodyHasATurn(s: System, core: nat, k: nat)
    requires Turns(s, core) && [s.cores[core].task] <= Line(s, core) && k <= |Line(s, core)|
    ensures var t, line := Switches(s, core, k), Line(s, core);
      && Turns(t, core) && t.cores[1 - core] == s.cores[1 - core]
      && Line(t, core) == line[k..] + line[..k]
      && t.cores[core].task == if k < |line| then line[k] else line[0]
  {
    hide Switch, Turns, Listed, Line, Without;
    LineHasRunner(s, core);
    var line := Line(s, core);
    if k == 0 {
      assert line[0..] + line[..0] == line;
    } else {
      EverybodyHasATurn(s, core, k - 1);
      var t := Switches(s, core, k - 1);
      LineHasRunner(t, core);
      SwitchTurns(t, core);
      OneTurn(line, k);
    }
  }

  lemma OneTurn(line: seq<TaskId>, k: nat)
    requires 0 < k <= |line|
    ensures var l := line[k - 1..] + line[..k - 1];
      && l[0] == line[k - 1] && Without(l, l[0]) + [l[0]] == line[k..] + line[..k]
      && (line[k..] + line[..k])[0] == if k < |line| then line[k] else line[0]
  {
    var l := line[k - 1..] + line[..k - 1];
    assert l[1..] == line[k..] + line[..k - 1] && line[..k - 1] + [line[k - 1]] == line[..k];
  }

  lemma LineHasRunner(s: System, core: nat)
    requires Turns(s, core)
    ensures |s.cores| == CORES && core < CORES && s.cores[core].priority < |s.lists| && s.top < |s.lists|
    ensures Line(s, core) != [] && s.cores[core].task in Line(s, core)
  {
    InOthers(s.lists[s.cores[core].priority], s.cores[core].task, Skipped(s, core));
  }

  lemma {:induction false} InOthers(list: seq<TaskId>, task: TaskId, skip: set<TaskId>)
    requires task in list && task !in skip
    ensures task in Others(list, skip)
  {
    if list[0] != task { InOthers(list[1..], task, skip); }
  }

  // ----------------------------------------------------------- the kernel --

  class SmpKernel {
    var lists: seq<seq<TaskId>>
    var top: nat
    var cores: seq<Core>
    var idle: set<TaskId>
    /** Which slots the arena has no task for. */
    var vacant: set<TaskId>
    var suspendedDepth: nat
    /** `core_yields`: the cores the port is to interrupt. */
    var coreYields: set<nat>

    function View(): System
      reads this
    {
      System(lists, top, cores, idle, vacant)
    }

    ghost predicate Shape()
      reads this
    {
      && |cores| == CORES && top < |lists|
      && forall c :: 0 <= c < CORES ==> cores[c].priority < |lists|
    }

    constructor (lists: seq<seq<TaskId>>, top: nat, first: Core, second: Core, idle: set<TaskId>, vacant: set<TaskId>)
      requires top < |lists| && first.priority < |lists| && second.priority < |lists|
      ensures Shape() && View() == System(lists, top, [first, second], idle, vacant)
      ensures suspendedDepth == 0 && coreYields == {}
    {
      this.lists, this.top, cores, this.idle, this.vacant := lists, top, [first, second], idle, vacant;
      suspendedDepth, coreYields := 0, {};
    }

    /** A core is interrupted once however often it is asked. */
    method DoYieldCore(me: nat, core: nat)
      requires core < |cores|
      modifies this`cores, this`coreYields
      ensures View() == YieldCore(old(View()), me, core)
      ensures cores == old(cores)[core :=
        if core == me then old(cores)[core].(pending := true) else old(cores)[core].(requested := true)]
      ensures coreYields == if core != me && !old(cores)[core].requested then old(coreYields) + {core} else old(coreYields)
    {
      if core == me {
        cores := cores[core := cores[core].(pending := true)];
      } else if !cores[core].requested {
        coreYields := coreYields + {core};
        cores := cores[core := cores[core].(requested := true)];
      } else {
        assert cores[core := cores[core].(requested := true)] == cores;
      }
    }

    method IsRunning(task: TaskId) returns (yes: bool)
      ensures yes == RunsUnasked(View(), task)
    {
      var c := 0;
      while c < |cores|
        invariant 0 <= c <= |cores|
        invariant forall i :: 0 <= i < c ==> cores[i].task != task || cores[i].requested
      {
        if cores[c].task == task && !cores[c].requested {
          assert View().cores[c].task == task;
          return true;
        }
        c := c + 1;
      }
      yes := false;
    }

    /** Off its ready list, wherever that is. */
    method Unlist(task: TaskId)
      modifies this`lists
      ensures View() == Unlisted(old(View()), task)
    {
      LevelFacts(lists, task);
      var level := LevelOf(lists, task);
      if level.Some? {
        lists := lists[level.value := Without(lists[level.value], task)];
      }
    }

    /** `add_task_to_ready_list`. */
    method AddTask(task: TaskId, level: nat)
      requires level < |lists|
      modifies this`lists, this`top
      ensures View() == AddReady(old(View()), task, level)
      ensures lists == old(lists)[level := old(lists)[level] + [task]] && top == if level > old(top) then level else old(top)
    {
      lists, top := lists[level := lists[level] + [task]], if level > top then level else top;
    }

    method DoYieldForTask(me: nat, task: TaskId, priority: nat)
      modifies this`cores, this`coreYields
      ensures View() == YieldForTask(old(View()), me, task, priority)
    {
      var running := IsRunning(task);
      if running {
        return;
      }
      var lowest: int, lowestCore: Option<nat> := priority - 1, None;
      var c := 0;
      while c < |cores|
        invariant 0 <= c <= |cores| && (lowest, lowestCore) == Scan(View(), priority, c)
        invariant View() == old(View())
      {
        if !cores[c].requested && !cores[c].pending {
          var p: int := cores[c].priority;
          if cores[c].task in idle {
            p := p - 1;
          }
          if p <= lowest {
            lowest, lowestCore := p, Some(c);
          }
        }
        c := c + 1;
      }
      ScanFacts(View(), priority, |cores|);
      if lowestCore.Some? {
        DoYieldCore(me, lowestCore.value);
      }
    }

    /** The walk of one level: the first item that the other core does not hold and the arena has a task
        for. */
    method FirstFree(list: seq<TaskId>, other: TaskId) returns (pick: Option<TaskId>)
      ensures pick == FirstNot(list, vacant + {other})
    {
      var i := 0;
      assert list[0..] == list;
      while i < |list|
        invariant 0 <= i <= |list| && FirstNot(list, vacant + {other}) == FirstNot(list[i..], vacant + {other})
      {
        if list[i] != other && list[i] !in vacant {
          return Some(list[i]);
        }
        assert list[i..][1..] == list[i + 1..];
        i := i + 1;
      }
      pick := None;
    }

    /** `select_for_core`. */
    method SelectForCore(core: nat) returns (found: bool)
      requires Shape() && core < CORES && !cores[core].pending
      modifies this`lists, this`top, this`cores
      ensures (View(), found) == Switch(old(View()), core)
    {
      ghost var s := View();
      var mine, other := cores[core], cores[1 - core].task;
      lists := lists[mine.priority := MoveToEnd(lists[mine.priority], mine.task)];
      var priority: nat, decrementTop := top, true;
      assert mine.(pending := false) == mine && cores[core := mine] == cores;
      while true
        invariant lists == Rotated(s, core) && cores == s.cores && idle == s.idle && vacant == s.vacant
        invariant priority <= s.top < |lists| && top < |lists|
        invariant Pick(lists, s.top, Skipped(s, core)) == Pick(lists, priority, Skipped(s, core))
        invariant decrementTop ==> top == priority && TopAfter(lists, s.top) == TopAfter(lists, priority)
        invariant !decrementTop ==> top == TopAfter(lists, s.top)
        decreases priority
      {
        if lists[priority] != [] {
          decrementTop := false;
          var pick := FirstFree(lists[priority], other);
          if pick.Some? {
            var now := if pick.value == mine.task then mine else mine.(task := pick.value, priority := priority);
            cores := cores[core := now.(requested := false)];
            return true;
          }
        }
        if decrementTop {
          top := if top == 0 then 0 else top - 1;
        }
        if priority == 0 {
          return false;
        }
        priority := priority - 1;
      }
    }

    /** `switch_context_smp`: a suspended scheduler only notes it, and a stall is reported. */
    method SwitchContext(core: nat) returns (stalled: bool)
      requires Shape() && core < CORES
      modifies this`lists, this`top, this`cores
      ensures suspendedDepth != 0 ==> View() == YieldCore(old(View()), core, core) && !stalled
      ensures suspendedDepth == 0 ==> View() == Switch(old(View()), core).0 && stalled == !Switch(old(View()), core).1
    {
      if suspendedDepth != 0 {
        cores := cores[core := cores[core].(pending := true)];
        return false;
      }
      cores := cores[core := cores[core].(pending := false)];
      var found := SelectForCore(core);
      stalled := !found;
    }

    /** `set_priority`, of a task that a core runs and that runs at its base: a raise looks for a core to
        interrupt if the task is ready, a fall asks the core that runs it unless it was asked already. */
    method SetPriority(me: nat, core: nat, level: nat)
      requires Shape() && core < CORES && level < |lists| && cores[core].task !in vacant
      modifies this`lists, this`top, this`cores, this`coreYields
      ensures level < old(cores)[core].priority ==> View() == After(old(View()), Demoted(core, level, me))
      ensures level > old(cores)[core].priority ==> View() == After(old(View()), Promoted(core, level, me))
      ensures level == old(cores)[core].priority ==> View() == old(View())
    {
      ghost var s := View();
      var task, base := cores[core].task, cores[core].priority;
      var yieldCore, yieldFor := level < base && !cores[core].requested, level > base;
      if base == level {
        return;
      }
      cores := cores[core := cores[core].(priority := level)];
      if task in lists[base] {
        lists := lists[base := Without(lists[base], task)];
        AddTask(task, level);
      } else {
        yieldFor := false;
      }
      assert View() == Relist(s, core, level) && Ready(s, task, base) == (task in s.lists[base]);
      if yieldCore {
        DoYieldCore(me, core);
      } else if yieldFor {
        DoYieldForTask(me, task, level);
      }
    }

    method TickTimeSlice()
      requires Shape()
      modifies this`cores, this`coreYields
      ensures View() == TimeSliced(old(View()), CORES)
      ensures forall c :: 0 <= c < CORES ==>
        cores[c] == old(cores)[c].(pending := old(cores)[c].pending || |lists[old(cores)[c].priority]| > 1)
    {
      var c := 0;
      while c < CORES
        invariant 0 <= c <= CORES && Shape() && View() == TimeSliced(old(View()), c) && lists == old(lists)
        invariant forall i :: 0 <= i < c ==>
          cores[i] == old(cores)[i].(pending := old(cores)[i].pending || |lists[old(cores)[i].priority]| > 1)
        invariant forall i :: c <= i < CORES ==> cores[i] == old(cores)[i]
        invariant forall i :: 0 <= i < CORES ==> cores[i].priority == old(cores)[i].priority
      {
        if |lists[cores[c].priority]| > 1 {
          DoYieldCore(c, c);
        }
        c := c + 1;
      }
    }

    method TickYields(me: nat) returns (here: bool)
      requires Shape() && me < CORES
      modifies this`cores, this`coreYields
      ensures View() == Interrupted(old(View()), me, CORES) && here == old(cores)[me].pending
      ensures forall c :: 0 <= c < CORES ==>
        cores[c] == old(cores)[c].(requested := old(cores)[c].requested || (c != me && old(cores)[c].pending))
    {
      here := false;
      var c := 0;
      while c < CORES
        invariant 0 <= c <= CORES && Shape() && View() == Interrupted(old(View()), me, c)
        invariant forall i :: 0 <= i < c ==>
          cores[i] == old(cores)[i].(requested := old(cores)[i].requested || (i != me && old(cores)[i].pending))
        invariant forall i :: c <= i < CORES ==> cores[i] == old(cores)[i]
        invariant forall i :: 0 <= i < CORES ==> cores[i].pending == old(cores)[i].pending
        invariant here == (me < c && old(cores)[me].pending)
        invariant forall i :: 0 <= i < CORES ==> cores[i].priority == old(cores)[i].priority
      {
        if cores[c].pending {
          if c == me {
            here := true;
          } else {
            DoYieldCore(me, c);
          }
        }
        c := c + 1;
      }
    }
  }
}
