/** The one-core scheduler of kernel.rs: which list each task is on, who runs, and the priorities that
    mutexes lend.

    `state` and `event` are the containers of a task's two list items, and `lists` and `events` the lists
    themselves.  Which task of a level a switch picks rests on a cursor of the list library, so here it
    is some task of the level; and a sorted insert goes somewhere in its list.

    `due` stands for every way of owing a switch: `yield_pending`, and a yield asked of the port and not
    yet taken. */
module Scheduling {
  import opened Basics
  import opened TaskLists

  /** A mutex is a queue, and its waiters are on that queue's list of receivers. */
  type MutexId = nat

  function ReceiversOf(m: MutexId): EventPlace { Waiting(2 * m + 1) }

  datatype Place = ReadyAt(level: nat) | Delayed | Overflow | Suspended | Off
  datatype EventPlace = Nowhere | PendingReady | Waiting(list: nat)

  /** `claim` is the priority that the value of the event item stands for, none while an event group uses
      the value for its own ends. */
  datatype Task = Task(priority: nat, base: nat, held: nat, state: Place, event: EventPlace, claim: Option<nat>)

  /** A live task is ready at its own priority, delayed or suspended; on no event list while it is
      ready; runs at its base priority unless it holds a mutex, and never below it; and claims its
      priority unless it runs at a lent one.  A task that awaits its reaping is on no list and holds
      nothing. */
  predicate TaskOk(t: Task, levels: nat, top: nat, depth: nat) {
    && t.priority < levels && t.base <= t.priority
    && (t.held == 0 ==> t.priority == t.base)
    && (t.state.ReadyAt? ==> t.state.level == t.priority <= top && t.event == Nowhere)
    && (t.state.Off? ==> t.event == Nowhere && t.held == 0)
    && (t.event == PendingReady ==> depth > 0)
    && (t.claim.Some? ==> t.claim.value < levels && (t.priority == t.base ==> t.claim.value == t.priority))
  }

  ghost predicate AllOk(tasks: map<TaskId, Task>, levels: nat, top: nat, depth: nat) {
    forall t :: t in tasks ==> TaskOk(tasks[t], levels, top, depth)
  }

  function States(tasks: map<TaskId, Task>): map<TaskId, Place> {
    map t | t in tasks :: tasks[t].state
  }

  function Events(tasks: map<TaskId, Task>): map<TaskId, EventPlace> {
    map t | t in tasks :: tasks[t].event
  }

  /** The lists hold what the containers say. */
  ghost predicate Shelved(lists: map<Place, seq<TaskId>>, events: map<EventPlace, seq<TaskId>>,
      tasks: map<TaskId, Task>)
  {
    Kept(lists, States(tasks)) && Kept(events, Events(tasks))
  }

  ghost function HeldBy(mutexes: map<MutexId, Option<TaskId>>, t: TaskId): set<MutexId> {
    set m | m in mutexes && mutexes[m] == Some(t)
  }

  /** What a task counts is what names it as holder, and whoever is named is a live task. */
  ghost predicate Accounted(tasks: map<TaskId, Task>, mutexes: map<MutexId, Option<TaskId>>) {
    && (forall t :: t in tasks ==> tasks[t].held == |HeldBy(mutexes, t)|)
    && (forall m :: m in mutexes && mutexes[m].Some? ==> mutexes[m].value in tasks && !tasks[mutexes[m].value].state.Off?)
  }

  /** No ready task is above this. */
  ghost predicate NoneAbove(tasks: map<TaskId, Task>, priority: nat) {
    forall t :: t in tasks && tasks[t].state.ReadyAt? ==> tasks[t].priority <= priority
  }

  /** A ready task that no ready task outranks. */
  ghost predicate Highest(tasks: map<TaskId, Task>, t: TaskId) {
    t in tasks && tasks[t].state.ReadyAt? && NoneAbove(tasks, tasks[t].priority)
  }

  /** A mutex changes hands: the new holder counts one more, the old one one less, nobody else any
      different. */
  lemma HeldAfter(mutexes: map<MutexId, Option<TaskId>>, m: MutexId, holder: Option<TaskId>, t: TaskId)
    requires m in mutexes && mutexes[m] != holder
    ensures var before, after := HeldBy(mutexes, t), HeldBy(mutexes[m := holder], t);
      |after| == if holder == Some(t) then |before| + 1 else if mutexes[m] == Some(t) then |before| - 1 else |before|
  {
    var before, after := HeldBy(mutexes, t), HeldBy(mutexes[m := holder], t);
    if holder == Some(t) {
      assert after == before + {m};
    } else {
      assert after == before - {m};
    }
  }

  function Readied(t: Task): Task { t.(state := ReadyAt(t.priority), event := Nowhere) }

  function Drained(t: Task): Task { if t.event.PendingReady? then Readied(t) else t }

  function HeadOf(events: map<EventPlace, seq<TaskId>>, list: EventPlace): Option<TaskId> {
    if On(events, list) == [] then None else Some(On(events, list)[0])
  }

  lemma OnlyIdle(idle: TaskId)
    ensures var tasks := map[idle := Task(0, 0, 0, ReadyAt(0), Nowhere, Some(0))];
      Shelved(map[ReadyAt(0) := [idle]], map[Nowhere := [idle]], tasks)
  {
  }

  lemma NoneAboveTop(tasks: map<TaskId, Task>, levels: nat, top: nat, depth: nat)
    requires AllOk(tasks, levels, top, depth)
    ensures NoneAbove(tasks, top)
  {
    forall t | t in tasks && tasks[t].state.ReadyAt? ensures tasks[t].priority <= top {
      assert TaskOk(tasks[t], levels, top, depth);
    }
  }

  lemma LowerTop(tasks: map<TaskId, Task>, levels: nat, top: nat, level: nat, depth: nat)
    requires AllOk(tasks, levels, top, depth) && NoneAbove(tasks, level) && level <= top
    ensures AllOk(tasks, levels, level, depth)
  {
    forall t | t in tasks ensures TaskOk(tasks[t], levels, level, depth) {
      assert TaskOk(tasks[t], levels, top, depth);
    }
  }

  /** What the containers say of one task's items is what the lists say. */
  lemma ItemsAt(lists: map<Place, seq<TaskId>>, events: map<EventPlace, seq<TaskId>>, tasks: map<TaskId, Task>,
      t: TaskId, p: Place, e: EventPlace)
    requires Shelved(lists, events, tasks)
    ensures t in On(lists, p) <==> t in tasks && tasks[t].state == p
    ensures t in On(events, e) <==> t in tasks && tasks[t].event == e
  {
    ItemAt(lists, States(tasks), p, t);
    ItemAt(events, Events(tasks), e, t);
    assert t in tasks ==> States(tasks)[t] == tasks[t].state && Events(tasks)[t] == tasks[t].event;
  }

  /** Ready on the list of its own priority, and on no other list of either kind. */
  ghost predicate OnReadyListOnly(lists: map<Place, seq<TaskId>>, events: map<EventPlace, seq<TaskId>>,
      tasks: map<TaskId, Task>, t: TaskId)
  {
    && t in tasks && tasks[t].state == ReadyAt(tasks[t].priority) && tasks[t].event == Nowhere
    && (forall p :: t in On(lists, p) <==> p == ReadyAt(tasks[t].priority))
    && (forall e :: t in On(events, e) <==> e == Nowhere)
  }

  lemma ReadyIsListed(lists: map<Place, seq<TaskId>>, events: map<EventPlace, seq<TaskId>>, tasks: map<TaskId, Task>,
      t: TaskId)
    requires Shelved(lists, events, tasks) && t in tasks
    requires tasks[t].state == ReadyAt(tasks[t].priority) && tasks[t].event == Nowhere
    ensures OnReadyListOnly(lists, events, tasks, t)
  {
    hide Shelved;
    forall p ensures t in On(lists, p) <==> p == ReadyAt(tasks[t].priority) {
      ItemsAt(lists, events, tasks, t, p, Nowhere);
    }
    forall e ensures t in On(events, e) <==> e == Nowhere {
      ItemsAt(lists, events, tasks, t, Off, e);
    }
  }

  /** The same task but for where its items are. */
  predicate OnlyMoved(was: Task, now: Task) {
    now.priority == was.priority && now.base == was.base && now.held == was.held && now.claim == was.claim
  }

  lemma HeadWaits(lists: map<Place, seq<TaskId>>, events: map<EventPlace, seq<TaskId>>, tasks: map<TaskId, Task>,
      list: EventPlace)
    requires Shelved(lists, events, tasks) && On(events, list) != []
    ensures var t := On(events, list)[0]; t in tasks && tasks[t].event == list
  {
    hide Shelved;
    assert On(events, list)[0] in On(events, list);
    ItemsAt(lists, events, tasks, On(events, list)[0], Off, list);
  }

  lemma NobodyWaits(lists: map<Place, seq<TaskId>>, events: map<EventPlace, seq<TaskId>>, tasks: map<TaskId, Task>,
      list: EventPlace)
    requires Shelved(lists, events, tasks) && On(events, list) == []
    ensures forall t :: t in tasks ==> tasks[t].event != list
  {
    hide Shelved;
    forall t | t in tasks ensures tasks[t].event != list {
      ItemsAt(lists, events, tasks, t, Off, list);
    }
  }

  /** An empty level at or above every ready task: they are all below it. */
  lemma LevelIsEmpty(lists: map<Place, seq<TaskId>>, events: map<EventPlace, seq<TaskId>>, tasks: map<TaskId, Task>,
      levels: nat, top: nat, depth: nat, level: nat)
    requires Shelved(lists, events, tasks) && AllOk(tasks, levels, top, depth) && NoneAbove(tasks, level)
    requires On(lists, ReadyAt(level)) == []
    ensures level > 0 ==> NoneAbove(tasks, level - 1)
    ensures level == 0 ==> !exists t :: t in tasks && tasks[t].state.ReadyAt?
  {
    hide Shelved;
    forall t | t in tasks && tasks[t].state.ReadyAt? ensures tasks[t].priority != level {
      ItemsAt(lists, events, tasks, t, ReadyAt(level), Nowhere);
      assert TaskOk(tasks[t], levels, top, depth);
    }
  }

  lemma MemberIsReady(lists: map<Place, seq<TaskId>>, events: map<EventPlace, seq<TaskId>>, tasks: map<TaskId, Task>,
      levels: nat, top: nat, depth: nat, level: nat, t: TaskId)
    requires Shelved(lists, events, tasks) && AllOk(tasks, levels, top, depth) && t in On(lists, ReadyAt(level))
    ensures t in tasks && tasks[t].state == ReadyAt(level) && tasks[t].priority == level
  {
    hide Shelved;
    ItemsAt(lists, events, tasks, t, ReadyAt(level), Nowhere);
    assert TaskOk(tasks[t], levels, top, depth);
  }

  lemma ContainersWith(tasks: map<TaskId, Task>, t: TaskId, x: Task)
    ensures States(tasks[t := x]) == States(tasks)[t := x.state] && Events(tasks[t := x]) == Events(tasks)[t := x.event]
    ensures t in tasks ==> t in States(tasks) && States(tasks)[t] == tasks[t].state
    ensures t in tasks ==> t in Events(tasks) && Events(tasks)[t] == tasks[t].event
    ensures t !in tasks ==> t !in States(tasks) && t !in Events(tasks)
  {
  }

  lemma SameContainers(tasks: map<TaskId, Task>, t: TaskId, x: Task)
    requires t in tasks && x.state == tasks[t].state && x.event == tasks[t].event
    ensures States(tasks[t := x]) == States(tasks) && Events(tasks[t := x]) == Events(tasks)
  {
  }

  lemma ContainersWithout(tasks: map<TaskId, Task>, t: TaskId)
    requires t in tasks
    ensures States(tasks - {t}) == States(tasks) - {t} && Events(tasks - {t}) == Events(tasks) - {t}
    ensures t in States(tasks) && States(tasks)[t] == tasks[t].state
    ensures t in Events(tasks) && Events(tasks)[t] == tasks[t].event
  {
  }

  lemma AtEnd(list: seq<TaskId>, t: TaskId)
    ensures Inserted(list, t, |list|) == list + [t]
  {
  }

  lemma NewShelved(lists: map<Place, seq<TaskId>>, events: map<EventPlace, seq<TaskId>>, tasks: map<TaskId, Task>,
      t: TaskId, x: Task)
    requires Shelved(lists, events, tasks) && t !in tasks && x.event == Nowhere
    ensures Shelved(lists[x.state := On(lists, x.state) + [t]], events[Nowhere := On(events, Nowhere) + [t]], tasks[t := x])
  {
    ContainersWith(tasks, t, x);
    AtEnd(On(lists, x.state), t);
    AtEnd(On(events, Nowhere), t);
    hide Kept, On, States, Events, Inserted;
    AddedKeeps(lists, States(tasks), t, x.state, |On(lists, x.state)|);
    AddedKeeps(events, Events(tasks), t, Nowhere, |On(events, Nowhere)|);
  }

  lemma GoneUnshelved(lists: map<Place, seq<TaskId>>, events: map<EventPlace, seq<TaskId>>, tasks: map<TaskId, Task>,
      t: TaskId)
    requires Shelved(lists, events, tasks) && t in tasks
    ensures Shelved(lists[tasks[t].state := Without(On(lists, tasks[t].state), t)],
      events[tasks[t].event := Without(On(events, tasks[t].event), t)], tasks - {t})
  {
    ContainersWithout(tasks, t);
    hide Kept, Without, On, States, Events;
    DroppedKeeps(lists, States(tasks), t);
    DroppedKeeps(events, Events(tasks), t);
  }

  /** The lists part the tasks: every task is on one ready list, a delayed list, the suspended list, or on
      none while it awaits its reaping; the ready list is that of its own priority; and while it is on
      an event list it is on no ready list. */
  lemma TasksArePartedByLists(lists: map<Place, seq<TaskId>>, events: map<EventPlace, seq<TaskId>>,
      tasks: map<TaskId, Task>, levels: nat, top: nat, depth: nat, t: TaskId)
    requires Shelved(lists, events, tasks) && AllOk(tasks, levels, top, depth) && t in tasks
    ensures exists p :: t in On(lists, p) && forall q :: t in On(lists, q) ==> q == p
    ensures forall l :: t in On(lists, ReadyAt(l)) ==> l == tasks[t].priority <= top
    ensures forall l, e :: t in On(lists, ReadyAt(l)) && t in On(events, e) ==> e == Nowhere
    ensures depth == 0 ==> t !in On(events, PendingReady)
  {
    hide Shelved, AllOk;
    var x := tasks[t];
    assert TaskOk(x, levels, top, depth) by { OneOk(tasks, levels, top, depth, t); }
    ItemsAt(lists, events, tasks, t, x.state, PendingReady);
    forall p ensures t in On(lists, p) <==> p == x.state {
      ItemsAt(lists, events, tasks, t, p, Nowhere);
    }
    forall e ensures t in On(events, e) <==> e == x.event {
      ItemsAt(lists, events, tasks, t, Off, e);
    }
  }

  lemma OneOk(tasks: map<TaskId, Task>, levels: nat, top: nat, depth: nat, t: TaskId)
    requires AllOk(tasks, levels, top, depth) && t in tasks
    ensures TaskOk(tasks[t], levels, top, depth)
  {
  }

  /** `set_event_priority_value`. */
  function Claiming(t: Task, priority: nat): Task {
    if t.claim.Some? then t.(claim := Some(priority)) else t
  }

  /** `set_priority`, of the task. */
  function WithBase(t: Task, new_: nat): Task {
    if new_ == t.base then t else
      var priority := if t.base == t.priority || new_ > t.priority then new_ else t.priority;
      Claiming(AtPriority(t, priority).(base := new_), new_)
  }

  function AtPriority(t: Task, priority: nat): Task {
    t.(priority := priority, state := if t.state.ReadyAt? then ReadyAt(priority) else t.state)
  }

  function Lent(t: Task, priority: nat): Task {
    if t.priority >= priority then t else Claiming(AtPriority(t, priority), priority)
  }

  /** `priority_disinherit`: a fall back to the base puts the task on the ready list of its base, wherever
      it was. */
  function GivenBack(t: Task): Task
    requires t.held > 0
  {
    if t.held == 1 && t.priority != t.base then
      t.(priority := t.base, state := ReadyAt(t.base), claim := Some(t.base), held := 0)
    else t.(held := t.held - 1)
  }

  /** The head of an event list is ready, or will be when the scheduler runs again. */
  function Released(t: Task, depth: nat): Task {
    if depth == 0 then Readied(t) else t.(event := PendingReady)
  }

  /** The giver has one mutex less, and the waiter it woke, if any, is released. */
  function Given(tasks: map<TaskId, Task>, giver: TaskId, waiter: Option<TaskId>, depth: nat): map<TaskId, Task> {
    if giver !in tasks || tasks[giver].held == 0 then tasks else
      var after := tasks[giver := GivenBack(tasks[giver])];
      if waiter.Some? && waiter.value in after then after[waiter.value := Released(after[waiter.value], depth)] else after
  }

  /** The giver has one mutex less, and is back at its base on its ready list if that was its last and lent it
      more; a waiter at the head is on its ready list, or pending while the scheduler is suspended. */
  ghost predicate Handed(lists: map<Place, seq<TaskId>>, events: map<EventPlace, seq<TaskId>>, was: map<TaskId, Task>,
      now: map<TaskId, Task>, giver: TaskId, waiter: Option<TaskId>, depth: nat)
  {
    && giver in was && was[giver].held > 0 && now.Keys == was.Keys
    && (forall t :: t in was && t != giver && waiter != Some(t) ==> now[t] == was[t])
    && (var g := was[giver];
        now[giver] == if g.held == 1 && g.priority != g.base
          then Task(g.base, g.base, 0, ReadyAt(g.base), g.event, Some(g.base)) else g.(held := g.held - 1))
    && (waiter.Some? && waiter.value in was ==>
      && waiter.value != giver && OnlyMoved(was[waiter.value], now[waiter.value])
      && if depth == 0 then OnReadyListOnly(lists, events, now, waiter.value)
         else now[waiter.value].event == PendingReady && now[waiter.value].state == was[waiter.value].state)
  }

  lemma GivenIsHanded(lists: map<Place, seq<TaskId>>, events: map<EventPlace, seq<TaskId>>, was: map<TaskId, Task>,
      giver: TaskId, waiter: Option<TaskId>, depth: nat)
    requires giver in was && was[giver].held > 0 && waiter != Some(giver)
    requires var now := Given(was, giver, waiter, depth);
      waiter.Some? && waiter.value in was && depth == 0 ==> OnReadyListOnly(lists, events, now, waiter.value)
    ensures Handed(lists, events, was, Given(was, giver, waiter, depth), giver, waiter, depth)
  {
    hide OnReadyListOnly;
  }

  /** `highest_waiting_priority`: what the head of the list claims. */
  function HighestWaiting(events: map<EventPlace, seq<TaskId>>, tasks: map<TaskId, Task>, m: MutexId): nat {
    var head := HeadOf(events, ReceiversOf(m));
    if head.Some? && head.value in tasks && tasks[head.value].claim.Some? then tasks[head.value].claim.value else 0
  }

  function Target(t: Task, highestWaiting: nat): nat { if highestWaiting > t.base then highestWaiting else t.base }

  /** `priority_disinherit_after_timeout`. */
  function Justified(t: Task, highestWaiting: nat): Task {
    var target := Target(t, highestWaiting);
    if t.held != 1 || t.priority == target then t else Claiming(AtPriority(t, target), target)
  }

  /** A holder of one mutex has the higher of its base and what the first of those still waiting claims, on
      its ready list if it is ready; a holder of more is as it was. */
  predicate LeftWith(was: Task, now: Task, waiting: seq<TaskId>, others: map<TaskId, Task>) {
    var claim := if waiting != [] && waiting[0] in others && others[waiting[0]].claim.Some?
      then others[waiting[0]].claim.value else 0;
    var target := if claim > was.base then claim else was.base;
    if was.held != 1 then now == was else
      && now.priority == target && now.base == was.base && now.held == 1 && now.event == was.event
      && now.state == (if was.state.ReadyAt? then ReadyAt(target) else was.state)
      && now.claim == (if was.claim.None? || was.priority == target then was.claim else Some(target))
  }

  lemma JustifiedLeaves(events: map<EventPlace, seq<TaskId>>, tasks: map<TaskId, Task>, m: MutexId, t: Task)
    requires t.state.ReadyAt? ==> t.state.level == t.priority
    ensures LeftWith(t, Justified(t, HighestWaiting(events, tasks, m)), On(events, ReceiversOf(m)), tasks)
  {
  }

  /** A waiter that does not outrank the giver's base leaves a giver that falls back outranked exactly if
      another task does. */
  lemma OutrankedByAnother(tasks: map<TaskId, Task>, giver: TaskId, waiter: TaskId, depth: nat)
    requires giver in tasks && waiter in tasks && giver != waiter
    requires tasks[giver].held == 1 && tasks[giver].priority != tasks[giver].base
    requires !tasks[waiter].state.ReadyAt? && tasks[waiter].priority <= tasks[giver].base
    ensures NoneAbove(Given(tasks, giver, Some(waiter), depth), tasks[giver].base)
      <==> !AnotherAbove(tasks, giver, tasks[giver].base)
  {
    var after := Given(tasks, giver, Some(waiter), depth);
    assert forall u :: u in tasks && u != giver && u != waiter ==> after[u] == tasks[u];
  }

  /** A ready task other than this one is above this. */
  ghost predicate AnotherAbove(tasks: map<TaskId, Task>, t: TaskId, priority: nat) {
    exists u :: u in tasks && u != t && tasks[u].state.ReadyAt? && tasks[u].priority > priority
  }

  lemma StillNoneAbove(tasks: map<TaskId, Task>, t: TaskId, x: Task, priority: nat, itself: bool)
    requires t in tasks
    ensures NoneAbove(tasks, priority) && (!x.state.ReadyAt? || x.priority <= priority) ==> NoneAbove(tasks[t := x], priority)
    ensures NoneAbove(tasks, priority) && x.priority <= tasks[t].priority && (x.state.ReadyAt? ==> tasks[t].state.ReadyAt?)
      ==> NoneAbove(tasks[t := x], priority)
    ensures NoneAbove(tasks, priority) && itself && x.priority >= priority ==> NoneAbove(tasks[t := x], x.priority)
  {
  }

  /** Whoever holds a mutex counts at least one. */
  lemma HolderCounts(tasks: map<TaskId, Task>, mutexes: map<MutexId, Option<TaskId>>, m: MutexId)
    requires Accounted(tasks, mutexes) && m in mutexes && mutexes[m].Some?
    ensures tasks[mutexes[m].value].held > 0 && !tasks[mutexes[m].value].state.Off?
  {
    assert m in HeldBy(mutexes, mutexes[m].value);
  }

  lemma HighestIsALevel(lists: map<Place, seq<TaskId>>, events: map<EventPlace, seq<TaskId>>, tasks: map<TaskId, Task>,
      levels: nat, top: nat, depth: nat, m: MutexId)
    requires Shelved(lists, events, tasks) && AllOk(tasks, levels, top, depth) && 0 < levels
    ensures HighestWaiting(events, tasks, m) < levels
  {
    if On(events, ReceiversOf(m)) != [] {
      HeadWaits(lists, events, tasks, ReceiversOf(m));
      assert TaskOk(tasks[On(events, ReceiversOf(m))[0]], levels, top, depth);
    }
  }

  /** One task rewritten, and whether what runs is outranked then. */
  lemma OutrankedByHolder(tasks: map<TaskId, Task>, holder: TaskId, now: Task, current: TaskId)
    requires holder in tasks && current in tasks && tasks[current].state.ReadyAt? && NoneAbove(tasks, tasks[current].priority)
    requires now.state.ReadyAt? <==> tasks[holder].state.ReadyAt?
    ensures var after := tasks[holder := now];
      NoneAbove(after, after[current].priority) <==>
        !(if holder == current then AnotherAbove(tasks, current, now.priority)
          else now.state.ReadyAt? && now.priority > tasks[current].priority)
  {
    var after := tasks[holder := now];
    assert forall u :: u in tasks && u != holder ==> after[u] == tasks[u];
    assert after[holder] == now && tasks[current].priority <= tasks[current].priority;
    if holder == current && AnotherAbove(tasks, current, now.priority) {
      var u :| u in tasks && u != current && tasks[u].state.ReadyAt? && tasks[u].priority > now.priority;
      assert after[u] == tasks[u];
    }
  }

  /** A task that waits for the scheduler to run again, and outranks this. */
  ghost predicate PendingAbove(tasks: map<TaskId, Task>, priority: nat) {
    exists t :: t in tasks && tasks[t].event.PendingReady? && tasks[t].priority > priority
  }

  ghost function Pending(tasks: map<TaskId, Task>): set<TaskId> {
    set t | t in tasks && tasks[t].event.PendingReady?
  }

  /** The books after a take of a free mutex, or a give by its holder. */
  lemma HandOver(tasks: map<TaskId, Task>, mutexes: map<MutexId, Option<TaskId>>, m: MutexId,
      holder: Option<TaskId>, t: TaskId, x: Task)
    requires Accounted(tasks, mutexes) && m in mutexes && t in tasks && !x.state.Off?
    requires (mutexes[m].None? && holder == Some(t) && x.held == tasks[t].held + 1)
      || (mutexes[m] == Some(t) && holder.None? && x.held == tasks[t].held - 1)
    ensures Accounted(tasks[t := x], mutexes[m := holder])
  {
    forall u | u in tasks ensures tasks[t := x][u].held == |HeldBy(mutexes[m := holder], u)| {
      HeldAfter(mutexes, m, holder, u);
    }
  }

  lemma NobodysOwner(tasks: map<TaskId, Task>, mutexes: map<MutexId, Option<TaskId>>, t: TaskId, x: Task)
    requires Accounted(tasks, mutexes) && t in tasks && x.held == tasks[t].held && (x.state.Off? ==> x.held == 0)
    ensures Accounted(tasks[t := x], mutexes)
  {
    if x.state.Off? {
      forall m | m in mutexes && mutexes[m].Some? ensures mutexes[m].value != t {
        assert mutexes[m].value == t ==> m in HeldBy(mutexes, t);
      }
    }
  }

  lemma OwnsNothing(tasks: map<TaskId, Task>, mutexes: map<MutexId, Option<TaskId>>, t: TaskId, x: Task)
    requires Accounted(tasks, mutexes) && t !in tasks && x.held == 0
    ensures Accounted(tasks[t := x], mutexes)
  {
    assert HeldBy(mutexes, t) == {};
  }

  /** A task can go with the books in order exactly if it holds no mutex. */
  lemma LeavesNothing(tasks: map<TaskId, Task>, mutexes: map<MutexId, Option<TaskId>>, t: TaskId)
    requires Accounted(tasks, mutexes) && t in tasks
    ensures Accounted(tasks - {t}, mutexes) <==> tasks[t].held == 0
  {
    if tasks[t].held == 0 {
      forall m | m in mutexes && mutexes[m].Some? ensures mutexes[m].value != t {
        assert mutexes[m].value == t ==> m in HeldBy(mutexes, t);
      }
    } else {
      assert HeldBy(mutexes, t) != {};
      var m :| m in HeldBy(mutexes, t);
      assert mutexes[m] == Some(t);
    }
  }

  lemma Deeper(tasks: map<TaskId, Task>, levels: nat, top: nat, depth: nat)
    requires AllOk(tasks, levels, top, depth)
    ensures AllOk(tasks, levels, top, depth + 1)
  {
  }

  lemma Shallower(tasks: map<TaskId, Task>, levels: nat, top: nat, depth: nat)
    requires AllOk(tasks, levels, top, depth) && depth > 1
    ensures AllOk(tasks, levels, top, depth - 1)
  {
  }

  lemma NonePending(tasks: map<TaskId, Task>, levels: nat, top: nat, depth: nat)
    requires AllOk(tasks, levels, top, depth) && forall t :: t in tasks ==> !tasks[t].event.PendingReady?
    ensures AllOk(tasks, levels, top, 0)
  {
  }

  class Scheduler {
    const levels: nat
    var tasks: map<TaskId, Task>
    var lists: map<Place, seq<TaskId>>
    var events: map<EventPlace, seq<TaskId>>
    var mutexes: map<MutexId, Option<TaskId>>
    /** How often the holder of each recursive mutex has taken it. */
    var recursions: map<MutexId, nat>
    var current: TaskId
    var currentPriority: nat
    var top: nat
    var depth: nat
    var due: bool

    ghost predicate Valid()
      reads this
    {
      && top < levels && AllOk(tasks, levels, top, depth) && Accounted(tasks, mutexes)
      && Shelved(lists, events, tasks)
      && current in tasks && currentPriority == tasks[current].priority
    }

    /** A recursive mutex is held exactly while there are takes not yet given back. */
    ghost predicate Nested()
      reads this
    {
      forall m :: m in recursions ==> m in mutexes && (recursions[m] > 0 <==> mutexes[m].Some?)
    }

    /** What runs is ready and outranked by nothing that is, or a switch is due. */
    ghost predicate Prompt()
      reads this
    {
      due || (current in tasks && tasks[current].state.ReadyAt? && NoneAbove(tasks, currentPriority))
    }

    constructor (levels: nat, idle: TaskId)
      requires 0 < levels
      ensures Valid() && Prompt() && tasks == map[idle := Task(0, 0, 0, ReadyAt(0), Nowhere, Some(0))] && current == idle
      ensures mutexes == map[] && recursions == map[] && depth == 0 && !due && this.levels == levels
    {
      this.levels := levels;
      tasks, mutexes, recursions := map[idle := Task(0, 0, 0, ReadyAt(0), Nowhere, Some(0))], map[], map[];
      lists, events := map[ReadyAt(0) := [idle]], map[Nowhere := [idle]];
      current, currentPriority, top, depth, due := idle, 0, 0, 0, false;
      new;
      OnlyIdle(idle);
    }

    // ------------------------------------------------------------ moves --

    /** Takes a task's items off the lists they are on and puts them where it is going: at the end of a
        ready list, the suspended list or the pending-ready list, at its sorted place of any other. */
    method Shelve(t: TaskId, x: Task)
      requires t in tasks && Shelved(lists, events, tasks)
      modifies this`lists, this`events
      ensures Shelved(lists, events, tasks[t := x])
      ensures (x.state == tasks[t].state ==> lists == old(lists)) && (x.event == tasks[t].event ==> events == old(events))
      ensures x.state.ReadyAt? && x.state != tasks[t].state ==> On(lists, x.state) == old(On(lists, x.state)) + [t]
      ensures x.event.PendingReady? && x.event != tasks[t].event ==> On(events, x.event) == old(On(events, x.event)) + [t]
    {
      var at: nat :| at <= |On(lists, x.state)|;
      if x.state.ReadyAt? || x.state.Suspended? {
        at := |On(lists, x.state)|;
      }
      var eventAt: nat :| eventAt <= |On(events, x.event)|;
      if x.event.PendingReady? {
        eventAt := |On(events, x.event)|;
      }
      ContainersWith(tasks, t, x);
      AtEnd(On(lists, x.state), t);
      AtEnd(On(events, x.event), t);
      hide Kept, States, Events, Without, Inserted;
      MovedKeeps(lists, States(tasks), t, x.state, at);
      MovedKeeps(events, Events(tasks), t, x.event, eventAt);
      lists := Moved(lists, t, tasks[t].state, x.state, at);
      events := Moved(events, t, tasks[t].event, x.event, eventAt);
    }

    /** Moves a task between lists, or lends it a priority: `set_task_priority` and list operations. */
    method Put(t: TaskId, x: Task)
      requires Valid() && t in tasks && TaskOk(x, levels, top, depth) && x.held == tasks[t].held
      modifies this`lists, this`events, this`tasks, this`currentPriority
      ensures Valid() && tasks == old(tasks)[t := x]
      ensures currentPriority == if t == current then x.priority else old(currentPriority)
      ensures x.state.ReadyAt? && x.state != old(tasks)[t].state ==> On(lists, x.state) == old(On(lists, x.state)) + [t]
    {
      NobodysOwner(tasks, mutexes, t, x);
      hide Shelved, Accounted;
      Shelve(t, x);
      tasks := tasks[t := x];
      if t == current {
        currentPriority := x.priority;
      }
    }

    /** `add_task_to_ready_list_at`, of a task that has left its other lists. */
    method AddTaskToReadyListAt(t: TaskId, priority: nat)
      requires Valid() && t in tasks && !tasks[t].state.Off? && priority == tasks[t].priority
      modifies this`lists, this`events, this`tasks, this`top, this`currentPriority
      ensures Valid() && tasks == old(tasks)[t := Readied(old(tasks)[t])]
      ensures OnReadyListOnly(lists, events, tasks, t) && OnlyMoved(old(tasks)[t], tasks[t])
      ensures old(tasks)[t].state != ReadyAt(priority) ==>
        On(lists, ReadyAt(priority)) == old(On(lists, ReadyAt(priority))) + [t]
      ensures top == if priority > old(top) then priority else old(top)
      ensures currentPriority == old(currentPriority)
    {
      hide Shelved, Accounted;
      assert TaskOk(tasks[t], levels, top, depth);
      if priority > top {
        top := priority;
      }
      Put(t, tasks[t].(state := ReadyAt(priority), event := Nowhere));
      ReadyIsListed(lists, events, tasks, t);
    }

    /** A task becomes ready, and asks for the core if it outranks what runs. */
    method Ready(t: TaskId) returns (higher: bool)
      requires Valid() && t in tasks && !tasks[t].state.Off?
      modifies this`lists, this`events, this`tasks, this`top, this`due, this`currentPriority
      ensures Valid() && tasks == old(tasks)[t := Readied(old(tasks)[t])] && currentPriority == old(currentPriority)
      ensures OnReadyListOnly(lists, events, tasks, t) && OnlyMoved(old(tasks)[t], tasks[t])
      ensures higher == (old(tasks)[t].priority > currentPriority) && due == (old(due) || higher)
      ensures old(Prompt()) ==> Prompt()
    {
      hide Shelved, Accounted;
      assert TaskOk(tasks[t], levels, top, depth);
      AddTaskToReadyListAt(t, tasks[t].priority);
      higher := tasks[t].priority > currentPriority;
      if higher {
        due := true;
      }
    }

    /** `remove_from_event_list`: the task at the head of one is ready now, or as soon as the scheduler
        runs again. */
    method RemoveFromEventList(list: EventPlace) returns (higher: bool)
      requires Valid() && list.Waiting? && On(events, list) != []
      modifies this`lists, this`events, this`tasks, this`top, this`due, this`currentPriority
      ensures Valid() && currentPriority == old(currentPriority)
      ensures var t := old(On(events, list))[0];
        && t in old(tasks) && old(tasks)[t].event == list
        && tasks == old(tasks)[t := Released(old(tasks)[t], depth)]
        && OnlyMoved(old(tasks)[t], tasks[t])
        && (if depth == 0 then OnReadyListOnly(lists, events, tasks, t)
            else tasks[t].event == PendingReady && tasks[t].state == old(tasks)[t].state)
        && higher == (old(tasks)[t].priority > currentPriority) && due == (old(due) || higher)
      ensures old(Prompt()) ==> Prompt()
    {
      var t := On(events, list)[0];
      HeadWaits(lists, events, tasks, list);
      hide Shelved, Accounted;
      assert TaskOk(tasks[t], levels, top, depth);
      if depth == 0 {
        higher := Ready(t);
        return;
      }
      Put(t, tasks[t].(event := PendingReady));
      higher := tasks[t].priority > currentPriority;
      if higher {
        due := true;
      }
    }

    /** `remove_from_unordered_event_list`, with the scheduler suspended: ready at once all the same.
        `wake_due_tasks`, of one due task, and a notification from a task do the same. */
    method Wake(t: TaskId)
      requires Valid() && t in tasks && !tasks[t].state.Off?
      modifies this`lists, this`events, this`tasks, this`top, this`due, this`currentPriority
      ensures Valid() && tasks == old(tasks)[t := Readied(old(tasks)[t])] && currentPriority == old(currentPriority)
      ensures OnReadyListOnly(lists, events, tasks, t) && OnlyMoved(old(tasks)[t], tasks[t])
      ensures due == (old(due) || old(tasks)[t].priority > currentPriority)
      ensures old(Prompt()) ==> Prompt()
    {
      var higher := Ready(t);
    }

    /** `place_on_event_list` and `add_current_task_to_delayed_list`: the running task gives up the core.  On
        an event group's list its item is put to the group's use. */
    method BlockCurrent(where: Place, event: EventPlace, inUse: bool)
      requires Valid() && tasks[current].state.ReadyAt?
      requires (where.Delayed? || where.Overflow? || where.Suspended?) && event != PendingReady
      modifies this`lists, this`events, this`tasks, this`due, this`currentPriority
      ensures Valid() && Prompt() && due && currentPriority == old(currentPriority)
      ensures var was := old(tasks)[current];
        tasks == old(tasks)[current := was.(state := where, event := event, claim := if inUse then None else was.claim)]
    {
      hide Shelved, Accounted;
      assert TaskOk(tasks[current], levels, top, depth);
      var was := tasks[current];
      Put(current, was.(state := where, event := event, claim := if inUse then None else was.claim));
      due := true;
    }

    /** `reset_event_item_value`: the running task has read its answer, and claims its priority again. */
    method ResetEventItem()
      requires Valid()
      modifies this`lists, this`events, this`tasks, this`currentPriority
      ensures Valid() && currentPriority == old(currentPriority)
      ensures tasks == old(tasks)[current := old(tasks)[current].(claim := Some(currentPriority))]
      ensures old(Prompt()) ==> Prompt()
    {
      hide Shelved, Accounted;
      assert TaskOk(tasks[current], levels, top, depth);
      Put(current, tasks[current].(claim := Some(currentPriority)));
    }

    // ----------------------------------------------------- the API's half --

    method Suspend(t: TaskId)
      requires Valid() && t in tasks && !tasks[t].state.Off?
      modifies this`lists, this`events, this`tasks, this`due, this`currentPriority
      ensures Valid() && tasks == old(tasks)[t := old(tasks)[t].(state := Suspended, event := Nowhere)]
      ensures due == (old(due) || t == current) && currentPriority == old(currentPriority)
      ensures old(Prompt()) ==> Prompt()
    {
      hide Shelved, Accounted;
      assert TaskOk(tasks[t], levels, top, depth);
      Put(t, tasks[t].(state := Suspended, event := Nowhere));
      if t == current {
        due := true;
      }
    }

    /** Only a task that is suspended and waits for nothing is resumed. */
    method Resume(t: TaskId)
      requires Valid() && t in tasks
      modifies this`lists, this`events, this`tasks, this`top, this`due, this`currentPriority
      ensures Valid() && currentPriority == old(currentPriority)
      ensures var resumes := t != current && old(tasks)[t].state.Suspended? && old(tasks)[t].event.Nowhere?;
        && tasks == (if resumes then old(tasks)[t := Readied(old(tasks)[t])] else old(tasks))
        && (resumes ==> OnReadyListOnly(lists, events, tasks, t) && OnlyMoved(old(tasks)[t], tasks[t]))
        && due == (old(due) || (resumes && old(tasks)[t].priority > currentPriority))
      ensures old(Prompt()) ==> Prompt()
    {
      if t != current && tasks[t].state.Suspended? && tasks[t].event.Nowhere? {
        var higher := Ready(t);
      }
    }

    method TaskCreate(t: TaskId, priority: nat)
      requires Valid() && t !in tasks && priority < levels
      modifies this`lists, this`events, this`tasks, this`top, this`due
      ensures Valid() && tasks == old(tasks)[t := Task(priority, priority, 0, ReadyAt(priority), Nowhere, Some(priority))]
      ensures due == (old(due) || priority > currentPriority)
      ensures old(Prompt()) ==> Prompt()
    {
      var task := Task(priority, priority, 0, ReadyAt(priority), Nowhere, Some(priority));
      OwnsNothing(tasks, mutexes, t, task);
      hide Shelved, Accounted;
      if priority > top {
        top := priority;
      }
      NewShelved(lists, events, tasks, t, task);
      hide On;
      lists := lists[task.state := On(lists, task.state) + [t]];
      events := events[Nowhere := On(events, Nowhere) + [t]];
      tasks := tasks[t := task];
      if priority > currentPriority {
        due := true;
      }
    }

    /** `task_delete`: another task is gone at once; the running one waits, on no list, to be reaped. */
    method TaskDelete(t: TaskId)
      requires Valid() && t in tasks && !tasks[t].state.Off? && tasks[t].held == 0
      modifies this`lists, this`events, this`tasks, this`due, this`currentPriority
      ensures Valid() && currentPriority == old(currentPriority)
      ensures t == current ==> due && tasks == old(tasks)[t := old(tasks)[t].(state := Off, event := Nowhere)]
      ensures t != current ==> due == old(due) && tasks == old(tasks) - {t}
      ensures old(Prompt()) ==> Prompt()
    {
      hide Shelved, Accounted;
      assert TaskOk(tasks[t], levels, top, depth);
      if t == current {
        Put(t, tasks[t].(state := Off, event := Nowhere));
        due := true;
      } else {
        Free(t);
      }
    }

    method Free(t: TaskId)
      requires Valid() && t in tasks && tasks[t].held == 0 && t != current
      modifies this`lists, this`events, this`tasks
      ensures Valid() && tasks == old(tasks) - {t}
      ensures old(Prompt()) ==> Prompt()
    {
      hide Shelved, Accounted, On, Without, TaskOk;
      LeavesNothing(tasks, mutexes, t);
      GoneUnshelved(lists, events, tasks, t);
      lists := lists[tasks[t].state := Without(On(lists, tasks[t].state), t)];
      events := events[tasks[t].event := Without(On(events, tasks[t].event), t)];
      tasks := tasks - {t};
    }

    /** `reap_waiting_tasks`, of one: the idle task frees a task that deleted itself. */
    method Reap(t: TaskId)
      requires Valid() && t in tasks && tasks[t].state.Off? && !tasks[current].state.Off?
      modifies this`lists, this`events, this`tasks
      ensures Valid() && tasks == old(tasks) - {t}
      ensures old(Prompt()) ==> Prompt()
    {
      assert TaskOk(tasks[t], levels, top, depth);
      Free(t);
    }

    // -------------------------------------------- the scheduler suspended --

    method SuspendAll()
      requires Valid()
      modifies this`depth
      ensures Valid() && depth == old(depth) + 1
      ensures old(Prompt()) ==> Prompt()
    {
      hide Shelved, Accounted;
      depth := depth + 1;
      Deeper(tasks, levels, top, depth - 1);
    }

    /** `resume_all`: the last one moves everything that became ready meanwhile to its ready list. */
    method ResumeAll()
      requires Valid() && depth > 0
      modifies this`lists, this`events, this`tasks, this`top, this`due, this`currentPriority, this`depth
      ensures Valid() && depth == old(depth) - 1 && currentPriority == old(currentPriority)
      ensures depth > 0 ==> tasks == old(tasks) && due == old(due)
      ensures depth == 0 ==> tasks == (map t | t in old(tasks) :: Drained(old(tasks)[t]))
      ensures depth == 0 ==> PendingAreReady(old(tasks))
      ensures depth == 0 ==> due == (old(due) || PendingAbove(old(tasks), currentPriority))
      ensures old(Prompt()) ==> Prompt()
    {
      if depth > 1 {
        Shallower(tasks, levels, top, depth);
        depth := depth - 1;
        return;
      }
      DrainPendingReady();
      NonePending(tasks, levels, top, depth);
      depth := 0;
    }

    /** Whoever was pending is on its ready list and on no other, and everybody else is as before. */
    ghost predicate PendingAreReady(was: map<TaskId, Task>)
      reads this
    {
      && tasks.Keys == was.Keys
      && forall t :: t in was ==>
        if was[t].event == PendingReady then OnReadyListOnly(lists, events, tasks, t) && OnlyMoved(was[t], tasks[t])
        else tasks[t] == was[t]
    }

    /** `drain_pending_ready_walk`. */
    method DrainPendingReady()
      requires Valid() && depth > 0
      modifies this`lists, this`events, this`tasks, this`top, this`due, this`currentPriority
      ensures Valid() && currentPriority == old(currentPriority)
      ensures tasks == map t | t in old(tasks) :: Drained(old(tasks)[t])
      ensures PendingAreReady(old(tasks))
      ensures due == (old(due) || PendingAbove(old(tasks), currentPriority))
      ensures old(Prompt()) ==> Prompt()
    {
      hide Shelved, Accounted, NoneAbove;
      ghost var was := tasks;
      ghost var left := Pending(tasks);
      while On(events, PendingReady) != []
        invariant Valid() && left == Pending(tasks) && currentPriority == old(currentPriority)
        invariant tasks.Keys == was.Keys
        invariant forall t :: t in was ==> tasks[t] == was[t] || tasks[t] == Drained(was[t])
        invariant forall t :: t in was && !was[t].event.PendingReady? ==> tasks[t] == was[t]
        invariant due ==> old(due) || PendingAbove(was, currentPriority)
        invariant old(due) ==> due
        invariant forall t :: t in was && was[t].event.PendingReady? && was[t].priority > currentPriority ==> due || t in left
        invariant old(Prompt()) ==> Prompt()
        decreases left
      {
        var t := On(events, PendingReady)[0];
        HeadWaits(lists, events, tasks, PendingReady);
        assert TaskOk(tasks[t], levels, top, depth);
        assert t in left;
        var higher := Ready(t);
        assert Pending(tasks) == left - {t};
        left := left - {t};
      }
      NobodyWaits(lists, events, tasks, PendingReady);
      forall t | t in was && was[t].event == PendingReady ensures OnReadyListOnly(lists, events, tasks, t) {
        assert tasks[t] == Drained(was[t]);
        ReadyIsListed(lists, events, tasks, t);
      }
    }

    // -------------------------------------------------------- priorities --

    /** `set_priority`.  A task that a mutex lends more than its new base keeps what it is lent. */
    method SetPriority(t: TaskId, wanted: nat)
      requires Valid() && t in tasks && !tasks[t].state.Off?
      modifies this`lists, this`events, this`tasks, this`top, this`due, this`currentPriority
      ensures Valid()
      ensures var was, new_ := old(tasks)[t], if wanted < levels then wanted else levels - 1;
        && tasks == old(tasks)[t := WithBase(was, new_)]
        && tasks[t].base == new_ && tasks[t].held == was.held && tasks[t].event == was.event
        && tasks[t].state == (if was.state.ReadyAt? then ReadyAt(tasks[t].priority) else was.state)
        && tasks[t].claim == (if was.claim.None? || new_ == was.base then was.claim else Some(new_))
        && tasks[t].priority == (if was.held == 0 || new_ > was.priority || was.priority == was.base then new_ else was.priority)
        && due == (old(due) || (if new_ > was.base then t != current && new_ > old(currentPriority) else new_ < was.base && t == current))
      ensures old(Prompt()) ==> Prompt()
    {
      hide Shelved, Accounted, NoneAbove;
      var new_ := if wanted < levels then wanted else levels - 1;
      var was := tasks[t];
      assert TaskOk(was, levels, top, depth);
      if was.base == new_ {
        assert tasks == tasks[t := WithBase(was, new_)];
        return;
      }
      var yieldRequired := if new_ > was.base then t != current && new_ > currentPriority else t == current;
      StillNoneAbove(tasks, t, WithBase(was, new_), currentPriority, t == current);
      var now := WithBase(was, new_);
      if was.state == ReadyAt(was.priority) && now.priority > top {
        top := now.priority;
      }
      Put(t, now);
      if yieldRequired {
        due := true;
      }
    }

    // ------------------------------------------------------------ mutexes --

    method NewMutex(m: MutexId)
      requires Valid() && m !in mutexes
      modifies this`mutexes
      ensures Valid() && mutexes == old(mutexes)[m := None]
      ensures old(Prompt()) ==> Prompt()
    {
      mutexes := mutexes[m := None];
      forall t | t in tasks ensures HeldBy(mutexes, t) == HeldBy(old(mutexes), t) {
      }
    }

    /** A take of a free mutex: `increment_mutexes_held`. */
    method TakeMutex(m: MutexId)
      requires Valid() && m in mutexes && mutexes[m].None? && !tasks[current].state.Off?
      modifies this`lists, this`events, this`tasks, this`mutexes
      ensures Valid() && mutexes == old(mutexes)[m := Some(current)]
      ensures tasks == old(tasks)[current := old(tasks)[current].(held := old(tasks)[current].held + 1)]
      ensures old(Prompt()) ==> Prompt()
    {
      var task := tasks[current];
      assert TaskOk(task, levels, top, depth);
      HandOver(tasks, mutexes, m, Some(current), current, task.(held := task.held + 1));
      SameContainers(tasks, current, task.(held := task.held + 1));
      hide Kept, States, Events, Accounted;
      mutexes := mutexes[m := Some(current)];
      tasks := tasks[current := task.(held := task.held + 1)];
    }

    /** `priority_inherit`: the running task is about to wait for the mutex, and lends its holder its
        priority. */
    method PriorityInherit(m: MutexId) returns (inherited: bool)
      requires Valid() && m in mutexes
      modifies this`lists, this`events, this`tasks, this`top, this`currentPriority
      ensures Valid() && currentPriority == old(currentPriority)
      ensures mutexes[m].None? ==> !inherited && tasks == old(tasks)
      ensures mutexes[m].Some? ==>
        && tasks == old(tasks)[mutexes[m].value := Lent(old(tasks)[mutexes[m].value], currentPriority)]
        && inherited == (old(tasks)[mutexes[m].value].base < currentPriority)
        && var was, now := old(tasks)[mutexes[m].value], tasks[mutexes[m].value];
        && now.priority == (if was.priority >= currentPriority then was.priority else currentPriority)
        && now.base == was.base && now.held == was.held && now.event == was.event
        && now.state == (if was.state.ReadyAt? then ReadyAt(now.priority) else was.state)
        && now.claim == (if was.claim.None? || was.priority >= currentPriority then was.claim else Some(currentPriority))
      ensures old(Prompt()) ==> Prompt()
    {
      hide NoneAbove;
      if mutexes[m].None? {
        return false;
      }
      var holder := mutexes[m].value;
      var was := tasks[holder];
      assert TaskOk(was, levels, top, depth) && TaskOk(tasks[current], levels, top, depth);
      if was.priority >= currentPriority {
        assert tasks == tasks[holder := Lent(was, currentPriority)];
        return was.base < currentPriority;
      }
      inherited := true;
      HolderCounts(tasks, mutexes, m);
      StillNoneAbove(tasks, holder, Lent(was, currentPriority), currentPriority, false);
      hide Shelved, Accounted;
      if was.state.ReadyAt? && currentPriority > top {
        top := currentPriority;
      }
      Put(holder, Lent(was, currentPriority));
    }

    /** The holder gives: `copy_data_to_queue` with `priority_disinherit` in it.  Only with the last mutex
        given does the giver fall back to its base priority. */
    method Disinherit(m: MutexId) returns (lowered: bool)
      requires Valid() && m in mutexes && mutexes[m] == Some(current) && tasks[current].event.Nowhere?
      modifies this`lists, this`events, this`tasks, this`mutexes, this`top, this`currentPriority
      ensures Valid() && mutexes == old(mutexes)[m := None]
      ensures var was := old(tasks)[current];
        && was.held > 0 && lowered == (was.held == 1 && was.priority != was.base)
        && tasks == old(tasks)[current := GivenBack(was)]
        && tasks[current] == (if lowered then Task(was.base, was.base, 0, ReadyAt(was.base), was.event, Some(was.base))
                              else was.(held := was.held - 1))
      ensures currentPriority == tasks[current].priority && events == old(events)
    {
      hide Shelved, Accounted;
      var was := tasks[current];
      assert TaskOk(was, levels, top, depth);
      HolderCounts(tasks, mutexes, m);
      HandOver(tasks, mutexes, m, None, current, GivenBack(was));
      lowered := was.held == 1 && was.priority != was.base;
      mutexes := mutexes[m := None];
      if lowered && was.base > top {
        top := was.base;
      }
      Shelve(current, GivenBack(was));
      tasks := tasks[current := GivenBack(was)];
      currentPriority := tasks[current].priority;
    }

    /** A give, with the waiter at the head of the mutex's list if there is one, in any state of the
        scheduler.  Where what runs was not outranked without a switch due, it is afterwards in one case
        only: none was due, the giver fell back, the waiter it woke does not outrank its base, and another
        ready task does. */
    method GiveMutex(m: MutexId) returns (higher: bool)
      requires Valid() && m in mutexes && mutexes[m] == Some(current) && tasks[current].event.Nowhere?
      modifies this`lists, this`events, this`tasks, this`mutexes, this`top, this`currentPriority, this`due
      ensures Valid() && mutexes == old(mutexes)[m := None]
      ensures var was, waiter := old(tasks)[current], old(HeadOf(events, ReceiversOf(m)));
        var lowered := was.held == 1 && was.priority != was.base;
        && tasks == Given(old(tasks), current, waiter, depth)
        && (waiter.Some? ==> waiter.value in old(tasks))
        && Handed(lists, events, old(tasks), tasks, current, waiter, depth)
        && higher == (waiter.Some? && old(tasks)[waiter.value].priority > tasks[current].priority)
        && due == (old(due) || higher || (lowered && waiter.None?))
      ensures old(Prompt()) ==> (Prompt() <==> !old(GiveLeavesOutranked(m)))
    {
      hide Shelved, Accounted, AnotherAbove, OnReadyListOnly, Handed;
      ghost var was, waiter := tasks[current], HeadOf(events, ReceiversOf(m));
      assert TaskOk(was, levels, top, depth);
      HolderCounts(tasks, mutexes, m);
      if waiter.Some? {
        HeadWaits(lists, events, tasks, ReceiversOf(m));
        assert TaskOk(tasks[waiter.value], levels, top, depth);
        if was.held == 1 && was.priority != was.base && tasks[waiter.value].priority <= was.base {
          OutrankedByAnother(tasks, current, waiter.value, depth);
        }
      }
      if was.held > 0 { StillNoneAbove(tasks, current, GivenBack(was), currentPriority, false); }
      var lowered := Disinherit(m);
      if On(events, ReceiversOf(m)) != [] {
        higher := RemoveFromEventList(ReceiversOf(m));
      } else {
        higher := false;
        if lowered {
          due := true;
        }
      }
      GivenIsHanded(lists, events, old(tasks), current, waiter, depth);
    }

    /** No switch is due, and a give makes the giver fall back, wakes a waiter that does not outrank its
        base, and another ready task does. */
    ghost predicate GiveLeavesOutranked(m: MutexId)
      reads this
    {
      var waiter := HeadOf(events, ReceiversOf(m));
      && !due && current in tasks && tasks[current].held == 1 && tasks[current].priority != tasks[current].base
      && waiter.Some? && waiter.value in tasks && tasks[waiter.value].priority <= tasks[current].base
      && AnotherAbove(tasks, current, tasks[current].base)
    }

    /** `mutex_take_recursive`: the holder only counts; anybody else takes it if it is free, and is told
        to block if not. */
    method MutexTakeRecursive(m: MutexId) returns (taken: bool)
      requires Valid() && Nested() && m in recursions && !tasks[current].state.Off?
      modifies this`lists, this`events, this`tasks, this`mutexes, this`recursions
      ensures Valid() && Nested() && (old(Prompt()) ==> Prompt())
      ensures taken <==> old(mutexes)[m].None? || old(mutexes)[m] == Some(current)
      ensures taken ==> mutexes == old(mutexes)[m := Some(current)] && recursions == old(recursions)[m := old(recursions)[m] + 1]
      ensures !taken ==> mutexes == old(mutexes) && recursions == old(recursions) && tasks == old(tasks)
    {
      if mutexes[m] == Some(current) {
        recursions := recursions[m := recursions[m] + 1];
        return true;
      }
      if mutexes[m].Some? {
        return false;
      }
      TakeMutex(m);
      recursions := recursions[m := recursions[m] + 1];
      taken := true;
    }

    /** `mutex_give_recursive`: only the holder may, and only its last give gives the mutex. */
    method MutexGiveRecursive(m: MutexId) returns (ok: bool)
      requires Valid() && Nested() && m in recursions && tasks[current].event.Nowhere?
      modifies this`lists, this`events, this`tasks, this`mutexes, this`recursions, this`top, this`currentPriority, this`due
      ensures Valid() && Nested() && ok == (old(mutexes)[m] == Some(current))
      ensures !ok ==> mutexes == old(mutexes) && recursions == old(recursions) && tasks == old(tasks)
      ensures ok ==> recursions == old(recursions)[m := old(recursions)[m] - 1]
      ensures ok ==> mutexes == if old(recursions)[m] == 1 then old(mutexes)[m := None] else old(mutexes)
      ensures ok ==> tasks == if old(recursions)[m] == 1
        then Given(old(tasks), current, old(HeadOf(events, ReceiversOf(m))), depth) else old(tasks)
      ensures old(Prompt()) ==> (Prompt() <==> !(ok && old(recursions)[m] == 1 && old(GiveLeavesOutranked(m))))
    {
      hide Handed, OnReadyListOnly;
      if mutexes[m] != Some(current) {
        return false;
      }
      ok := true;
      recursions := recursions[m := recursions[m] - 1];
      if recursions[m] == 0 {
        hide Shelved, Accounted, AllOk, NoneAbove, GiveLeavesOutranked, Given;
        var higher := GiveMutex(m);
      }
    }

    /** `queue_take_timed_out`: a waiter gave up, and a holder of one mutex keeps only what the claim at the
        head of those still waiting justifies.  A holder still at its base may be raised by it, and a holder
        that waited for its own mutex is lowered while it runs. */
    method DisinheritAfterTimeout(m: MutexId)
      requires Valid() && m in mutexes
      modifies this`lists, this`events, this`tasks, this`top, this`currentPriority
      ensures Valid() && (mutexes[m] != Some(current) ==> currentPriority == old(currentPriority))
      ensures mutexes[m].None? ==> tasks == old(tasks)
      ensures mutexes[m].Some? ==>
        var holder, highestWaiting := mutexes[m].value, HighestWaiting(old(events), old(tasks), m);
        && tasks == old(tasks)[holder := Justified(old(tasks)[holder], highestWaiting)]
        && LeftWith(old(tasks)[holder], tasks[holder], old(On(events, ReceiversOf(m))), old(tasks))
      ensures old(Prompt()) ==> (Prompt() <==> !old(TimeoutLeavesOutranked(m)))
    {
      if mutexes[m].None? {
        return;
      }
      hide LeftWith;
      var holder := mutexes[m].value;
      var was, highestWaiting := tasks[holder], HighestWaiting(events, tasks, m);
      assert TaskOk(was, levels, top, depth);
      JustifiedLeaves(events, tasks, m, was);
      hide Shelved, Accounted;
      HolderCounts(tasks, mutexes, m);
      HighestIsALevel(lists, events, tasks, levels, top, depth, m);
      if tasks[current].state.ReadyAt? && NoneAbove(tasks, currentPriority) {
        OutrankedByHolder(tasks, holder, Justified(was, highestWaiting), current);
      }
      var now := Justified(was, highestWaiting);
      if now == was {
        assert tasks == tasks[holder := now];
        return;
      }
      if was.state.ReadyAt? && now.priority > top {
        top := now.priority;
      }
      hide NoneAbove, AnotherAbove;
      Put(holder, now);
    }

    /** No switch is due, and the holder's one mutex is what the timeout leaves it: either it is ready and
        what is left to wait raises it above what runs, or it runs, and falls below another ready task. */
    ghost predicate TimeoutLeavesOutranked(m: MutexId)
      reads this
    {
      && !due && m in mutexes && mutexes[m].Some? && mutexes[m].value in tasks
      && var holder := tasks[mutexes[m].value];
      var target := Target(holder, HighestWaiting(events, tasks, m));
      && holder.held == 1
      && if mutexes[m].value == current then AnotherAbove(tasks, current, target)
         else holder.state.ReadyAt? && target > currentPriority
    }

    // ------------------------------------------------------- the switch --

    /** `next_round_robin`: some task of a level that has one. */
    method NextRoundRobin(level: nat) returns (next: TaskId)
      requires Valid() && On(lists, ReadyAt(level)) != []
      ensures next in tasks && tasks[next].state == ReadyAt(level) && tasks[next].priority == level
    {
      hide Shelved, AllOk, Accounted;
      assert On(lists, ReadyAt(level))[0] in On(lists, ReadyAt(level));
      next :| next in On(lists, ReadyAt(level));
      MemberIsReady(lists, events, tasks, levels, top, depth, level, next);
    }

    /** `switch_context`: with the scheduler running, what runs next is a ready task that none outranks;
        it fails only where nothing is ready. */
    method SwitchContext() returns (ok: bool)
      requires Valid()
      modifies this`due, this`current, this`currentPriority, this`top
      ensures Valid()
      ensures depth != 0 ==> ok && due && current == old(current)
      ensures depth == 0 && ok ==> Highest(tasks, current) && Prompt() && !due
      ensures depth == 0 ==> (ok <==> exists t :: t in tasks && tasks[t].state.ReadyAt?)
      ensures !ok ==> current == old(current)
    {
      if depth != 0 {
        due := true;
        return true;
      }
      due := false;
      var level := top;
      NoneAboveTop(tasks, levels, top, depth);
      while On(lists, ReadyAt(level)) == []
        invariant Valid() && current == old(current) && !due && depth == 0
        invariant 0 <= level <= top && NoneAbove(tasks, level)
        decreases level
      {
        hide Shelved, AllOk, NoneAbove;
        LevelIsEmpty(lists, events, tasks, levels, top, depth, level);
        if level == 0 {
          return false;
        }
        level := level - 1;
      }
      var next := NextRoundRobin(level);
      top := level;
      LowerTop(tasks, levels, old(top), level, depth);
      current, currentPriority := next, level;
      ok := true;
    }
  }

  // ------------------------------------ where a ready task is left above --

  /** Task 1, of priority 1, runs and holds mutex 7; task 0 is idle. */
  method Holder() returns (s: Scheduler)
    ensures fresh(s) && s.Valid() && s.Prompt() && !s.due && s.depth == 0 && s.levels == 6
    ensures s.current == 1 && s.mutexes == map[7 := Some(1)]
    ensures s.tasks == map[0 := Task(0, 0, 0, ReadyAt(0), Nowhere, Some(0)), 1 := Task(1, 1, 1, ReadyAt(1), Nowhere, Some(1))]
  {
    hide Shelved, Accounted, AllOk;
    s := new Scheduler(6, 0);
    s.TaskCreate(1, 1);
    assert s.tasks[1].state.ReadyAt?;
    var ok := s.SwitchContext();
    s.NewMutex(7);
    s.TakeMutex(7);
  }

  /** A new task that outranks the holder runs, finds the mutex taken, lends its priority and waits; the
      holder runs again. */
  method Contend(s: Scheduler, t: TaskId, p: nat)
    requires s.Valid() && s.Prompt() && !s.due && s.depth == 0 && t !in s.tasks && s.currentPriority < p < s.levels
    requires s.current == 1 && s.mutexes == map[7 := Some(1)]
    modifies s
    ensures s.Valid() && s.Prompt() && !s.due && s.depth == 0 && s.current == 1 && s.mutexes == map[7 := Some(1)]
    ensures s.tasks == old(s.tasks)[1 := Lent(old(s.tasks)[1], p)][t := Task(p, p, 0, Delayed, ReceiversOf(7), Some(p))]
  {
    hide Shelved, Accounted, AllOk;
    s.TaskCreate(t, p);
    assert s.tasks[t].state.ReadyAt? && s.tasks[t].priority == p;
    var ok := s.SwitchContext();
    assert s.current == t;
    var inherited := s.PriorityInherit(7);
    s.BlockCurrent(Delayed, ReceiversOf(7), false);
    assert s.tasks[1].state.ReadyAt? && s.tasks[1].priority == p;
    ok := s.SwitchContext();
    assert s.current == 1;
  }

  /** Task 2 lends the holder 5 and is lowered to 1 while it waits; task 3, of priority 3, becomes ready.
      The give wakes task 2 and falls back to 1, with no switch due. */
  method GiveUnderAThird() returns (s: Scheduler)
    ensures fresh(s) && s.Valid() && s.depth == 0 && !s.due && !s.Prompt()
    ensures s.current in s.tasks && s.tasks[s.current].priority == 1 && 3 in s.tasks && s.tasks[3].state == ReadyAt(3)
  {
    hide Shelved, Accounted, AllOk;
    s := Holder();
    Contend(s, 2, 5);
    s.TaskCreate(3, 3);
    s.SetPriority(2, 1);
    OnlyWaiter(s, 2);
    assert AnotherAbove(s.tasks, 1, 1) by { assert s.tasks[3].state.ReadyAt?; }
    assert s.GiveLeavesOutranked(7);
    var higher := s.GiveMutex(7);
  }

  /** The one task that waits for mutex 7 is the head of its list. */
  lemma OnlyWaiter(s: Scheduler, t: TaskId)
    requires s.Valid() && t in s.tasks && forall u :: u in s.tasks ==> (s.tasks[u].event == ReceiversOf(7) <==> u == t)
    ensures HeadOf(s.events, ReceiversOf(7)) == Some(t)
  {
    hide Shelved;
    ItemsAt(s.lists, s.events, s.tasks, t, Off, ReceiversOf(7));
    HeadWaits(s.lists, s.events, s.tasks, ReceiversOf(7));
  }

  /** Tasks 2 and 3 wait for the mutex and are then raised to 5 and 4, which lends nothing. */
  method TwoWait() returns (s: Scheduler)
    ensures fresh(s) && s.Valid() && s.depth == 0 && s.mutexes == map[7 := Some(1)]
    ensures s.tasks.Keys == {0, 1, 2, 3} && s.tasks[0] == Task(0, 0, 0, ReadyAt(0), Nowhere, Some(0))
    ensures s.tasks[1] == Task(3, 1, 1, ReadyAt(3), Nowhere, Some(3))
    ensures s.tasks[2] == Task(5, 5, 0, Delayed, ReceiversOf(7), Some(5))
    ensures s.tasks[3] == Task(4, 4, 0, Delayed, ReceiversOf(7), Some(4))
  {
    hide Shelved, Accounted, AllOk;
    s := Holder();
    Contend(s, 2, 2);
    Contend(s, 3, 3);
    s.SetPriority(2, 5);
    s.SetPriority(3, 4);
  }

  /** Task 3 gives up: it runs at 4, and the holder is raised to what task 2 claims, 5, with no switch
      due. */
  method TimeoutRaisesHolder() returns (s: Scheduler)
    ensures fresh(s) && s.Valid() && s.depth == 0 && !s.due && !s.Prompt()
    ensures s.currentPriority == 4 && 1 in s.tasks && s.tasks[1].state == ReadyAt(5)
  {
    hide Shelved, Accounted, AllOk;
    s := TwoWait();
    s.Wake(3);
    assert s.tasks[3].state.ReadyAt? && s.tasks[3].priority == 4;
    var ok := s.SwitchContext();
    assert s.current == 3;
    OnlyWaiter(s, 2);
    s.DisinheritAfterTimeout(7);
  }
}
