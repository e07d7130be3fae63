/** Delays where tasks are freed in their sleep: their items stay on the delayed list, and the walk that wakes
    what is due ends at one of them. */
module DeadSleepers {
  import opened Basics
  import opened Sleepers

  /** How many at the front a tick at time t readies: it ends at one that is not due, and at one whose slot of
      the arena no task lives in, which it leaves where it is. */
  function Reach(queue: seq<Sleeper>, vacant: set<TaskId>, t: nat): (k: nat)
    ensures k <= Due(queue, t)
  {
    if queue == [] || queue[0].wake > t || queue[0].task in vacant then 0 else 1 + Reach(queue[1..], vacant, t)
  }

  function TickPast(c: Clock, vacant: set<TaskId>): Clock {
    var k := Reach(c.queue, vacant, c.now + 1);
    Clock(c.now + 1, c.queue[k..], c.ready + Tasks(c.queue[..k]))
  }

  /** The clock, and the slots that no task lives in. */
  datatype Ward = Ward(clock: Clock, vacant: set<TaskId>)

  datatype Change = Passes(event: Event) | Frees(task: TaskId) | Creates(task: TaskId)

  /** A task that is not there does not go to sleep, and nothing wakes it.  A slot that a list has an item of is
      not taken again. */
  function StepPast(w: Ward, e: Change): Ward {
    match e
    case Passes(Tick) => w.(clock := TickPast(w.clock, w.vacant))
    case Passes(Sleep(task, n)) => if task in w.vacant then w else w.(clock := Delay(w.clock, task, n))
    case Passes(Wake(task)) => if task in w.vacant then w else w.(clock := Cancel(w.clock, task))
    case Frees(task) => w.(vacant := w.vacant + {task})
    case Creates(task) => if Absent(w.clock.queue, task) then w.(vacant := w.vacant - {task}) else w
  }

  predicate Absent(queue: seq<Sleeper>, task: TaskId) { forall x :: x in queue ==> x.task != task }

  function RunPast(w: Ward, changes: seq<Change>): Ward
    decreases |changes|
  {
    if changes == [] then w else RunPast(StepPast(w, changes[0]), changes[1..])
  }

  function TicksPassing(changes: seq<Change>): nat {
    if changes == [] then 0 else (if changes[0] == Passes(Tick) then 1 else 0) + TicksPassing(changes[1..])
  }

  /** Nothing in the run is about this task: it is not woken early or freed, and does not sleep again. */
  predicate Spares(changes: seq<Change>, task: TaskId) {
    forall i :: 0 <= i < |changes| ==>
      match changes[i]
      case Passes(Tick) => true
      case Passes(e) => e.task != task
      case Frees(u) => u != task
      case Creates(u) => true
  }

  // ------------------------------------------------------ dead and ahead --

  /** A dead sleeper is ahead of this one. */
  predicate Behind(queue: seq<Sleeper>, vacant: set<TaskId>, s: Sleeper) {
    queue != [] && queue[0] != s && (queue[0].task in vacant || Behind(queue[1..], vacant, s))
  }

  /** A tick readies exactly who is due if and only if none of those is dead; else the first that is stays at
      the head. */
  lemma {:induction false} ReachIsDue(queue: seq<Sleeper>, vacant: set<TaskId>, t: nat)
    ensures Reach(queue, vacant, t) == Due(queue, t) <==> forall i :: 0 <= i < Due(queue, t) ==> queue[i].task !in vacant
    ensures var k := Reach(queue, vacant, t); k < Due(queue, t) ==> queue[k].task in vacant && queue[k].wake <= t
  {
    if queue != [] && queue[0].wake <= t {
      if queue[0].task !in vacant {
        ReachIsDue(queue[1..], vacant, t);
        assert forall i :: 0 < i < |queue| ==> queue[i] == queue[1..][i - 1];
      } else {
        assert queue[0].task in vacant && 0 < Due(queue, t);
      }
    }
  }

  lemma {:induction false} ReachIsPrefix(queue: seq<Sleeper>, k: nat, vacant: set<TaskId>, t: nat)
    requires k <= |queue|
    requires forall i :: 0 <= i < k ==> queue[i].wake <= t && queue[i].task !in vacant
    requires k < |queue| ==> queue[k].wake > t || queue[k].task in vacant
    ensures Reach(queue, vacant, t) == k
  {
    if k > 0 { ReachIsPrefix(queue[1..], k - 1, vacant, t); }
  }

  lemma {:induction false} InsertBehind(queue: seq<Sleeper>, vacant: set<TaskId>, s: Sleeper, x: Sleeper)
    requires x.task != s.task && x.task !in vacant
    ensures Behind(Insert(queue, x), vacant, s) <==> Behind(queue, vacant, s)
  {
    if queue == [] || queue[0].wake > x.wake {
      assert ([x] + queue)[1..] == queue;
    } else {
      InsertBehind(queue[1..], vacant, s, x);
    }
  }

  lemma {:induction false} WokenBehind(queue: seq<Sleeper>, vacant: set<TaskId>, s: Sleeper, task: TaskId)
    requires task != s.task && task !in vacant
    ensures Behind(Woken(queue, task), vacant, s) <==> Behind(queue, vacant, s)
  {
    if queue != [] {
      WokenBehind(queue[1..], vacant, s, task);
      assert ([queue[0]] + Woken(queue[1..], task))[1..] == Woken(queue[1..], task);
    }
  }

  lemma {:induction false} MoreVacantBehind(queue: seq<Sleeper>, vacant: set<TaskId>, s: Sleeper, task: TaskId)
    requires Behind(queue, vacant, s)
    ensures Behind(queue, vacant + {task}, s)
  {
    if queue[0].task !in vacant { MoreVacantBehind(queue[1..], vacant, s, task); }
  }

  lemma {:induction false} TakenBehind(queue: seq<Sleeper>, vacant: set<TaskId>, s: Sleeper, task: TaskId)
    requires Behind(queue, vacant, s) && Absent(queue, task)
    ensures Behind(queue, vacant - {task}, s)
  {
    assert queue[0] in queue;
    if queue[0].task !in vacant { TakenBehind(queue[1..], vacant, s, task); }
  }

  /** The walk passes nobody who is behind a dead one. */
  lemma {:induction false} TickBehind(queue: seq<Sleeper>, vacant: set<TaskId>, s: Sleeper, t: nat)
    requires Behind(queue, vacant, s)
    ensures var k := Reach(queue, vacant, t); s !in queue[..k] && Behind(queue[k..], vacant, s)
  {
    if queue[0].wake > t || queue[0].task in vacant {
      assert queue[0..] == queue;
    } else {
      TickBehind(queue[1..], vacant, s, t);
      var k := Reach(queue[1..], vacant, t);
      assert queue[..k + 1] == [queue[0]] + queue[1..][..k] && queue[k + 1..] == queue[1..][k..];
    }
  }

  /** And everybody who is due and not. */
  lemma {:induction false} TickReaches(queue: seq<Sleeper>, vacant: set<TaskId>, s: Sleeper, t: nat)
    requires Sorted(queue) && s in queue && s.wake <= t && s.task !in vacant && !Behind(queue, vacant, s)
    ensures s in queue[..Reach(queue, vacant, t)]
  {
    var at: nat :| at < |queue| && queue[at] == s;
    assert queue[0].wake <= s.wake;
    if queue[0] == s {
      assert queue[..Reach(queue, vacant, t)][0] == s;
    } else {
      assert queue[1..][at - 1] == s;
      TickReaches(queue[1..], vacant, s, t);
      var k := Reach(queue[1..], vacant, t);
      assert queue[..k + 1] == [queue[0]] + queue[1..][..k];
    }
  }

  // ------------------------------------------------------------ one step --

  /** In whatever happens to others a sleeper keeps its place, and a dead one ahead of it stays. */
  lemma StepSpares(w: Ward, e: Change, s: Sleeper)
    requires Sorted(w.clock.queue) && Sleeps(w.clock.queue, s) && s.task !in w.vacant && Spares([e], s.task)
    requires e != Passes(Tick)
    ensures var m := StepPast(w, e);
      && m.clock.now == w.clock.now && m.clock.ready == w.clock.ready
      && Sorted(m.clock.queue) && Sleeps(m.clock.queue, s) && s.task !in m.vacant
      && (Behind(w.clock.queue, w.vacant, s) ==> Behind(m.clock.queue, m.vacant, s))
  {
    hide Sorted, Sleeps, Behind, Insert, Woken;
    var q := w.clock.queue;
    assert e == [e][0];
    match e {
      case Passes(Sleep(task, n)) => if task !in w.vacant { SleepSpares(w, s, Sleeper(task, w.clock.now + n)); }
      case Passes(Wake(task)) => if task !in w.vacant { WakeSpares(w, s, task); }
      case Frees(task) => if Behind(q, w.vacant, s) { MoreVacantBehind(q, w.vacant, s, task); }
      case Creates(task) => if Absent(q, task) && Behind(q, w.vacant, s) { TakenBehind(q, w.vacant, s, task); }
    }
  }

  lemma SleepSpares(w: Ward, s: Sleeper, x: Sleeper)
    requires Sorted(w.clock.queue) && Sleeps(w.clock.queue, s) && x.task != s.task && x.task !in w.vacant
    ensures var q := Insert(w.clock.queue, x);
      Sorted(q) && Sleeps(q, s) && (Behind(q, w.vacant, s) <==> Behind(w.clock.queue, w.vacant, s))
  {
    hide Sorted, Behind, Insert;
    InsertFacts(w.clock.queue, x);
    InsertBehind(w.clock.queue, w.vacant, s, x);
  }

  lemma WakeSpares(w: Ward, s: Sleeper, task: TaskId)
    requires Sorted(w.clock.queue) && Sleeps(w.clock.queue, s) && task != s.task && task !in w.vacant
    ensures var q := Woken(w.clock.queue, task);
      Sorted(q) && Sleeps(q, s) && (Behind(q, w.vacant, s) <==> Behind(w.clock.queue, w.vacant, s))
  {
    hide Sorted, Behind, Woken;
    WokenFacts(w.clock.queue, task);
    WokenBehind(w.clock.queue, w.vacant, s, task);
  }

  lemma SplitSleeper(queue: seq<Sleeper>, k: nat, s: Sleeper)
    requires Sorted(queue) && Sleeps(queue, s) && k <= |queue|
    ensures Sorted(queue[k..]) && (s !in queue[..k] ==> Sleeps(queue[k..], s))
    ensures s in queue[..k] <==> s.task in Tasks(queue[..k])
  {
    TaskIn(queue[..k], s.task);
    assert queue == queue[..k] + queue[k..];
  }

  lemma NotYetDue(queue: seq<Sleeper>, k: nat, s: Sleeper, t: nat)
    requires k <= Due(queue, t) && s.wake > t
    ensures s !in queue[..k]
  {
    DueSplits(queue, t);
  }

  lemma WalkPasses(queue: seq<Sleeper>, vacant: set<TaskId>, s: Sleeper, t: nat)
    requires Sorted(queue) && Sleeps(queue, s) && s.task !in vacant
    ensures var k := Reach(queue, vacant, t);
      && (s in queue[..k] <==> s.wake <= t && !Behind(queue, vacant, s))
      && (Behind(queue, vacant, s) ==> Behind(queue[k..], vacant, s))
  {
    hide Behind, Sorted, Due;
    if Behind(queue, vacant, s) {
      TickBehind(queue, vacant, s, t);
    } else if s.wake <= t {
      TickReaches(queue, vacant, s, t);
    } else {
      NotYetDue(queue, Reach(queue, vacant, t), s, t);
    }
  }

  /** A tick leaves alone one whose time it is not, or behind a dead one, and readies any other. */
  lemma TickPastFacts(w: Ward, s: Sleeper)
    requires Sorted(w.clock.queue) && Sleeps(w.clock.queue, s) && s.task !in w.vacant
    ensures var q, c, m := w.clock.queue, w.clock, TickPast(w.clock, w.vacant);
      && c.ready <= m.ready && Sorted(m.queue)
      && (s.task in m.ready[|c.ready|..] <==> s.wake <= c.now + 1 && !Behind(q, w.vacant, s))
      && (s.task !in m.ready[|c.ready|..] ==> Sleeps(m.queue, s))
      && (Behind(q, w.vacant, s) ==> Behind(m.queue, w.vacant, s))
  {
    hide Sorted, Sleeps, Behind, Reach, Tasks;
    var q, c := w.clock.queue, w.clock;
    var k := Reach(q, w.vacant, c.now + 1);
    SplitSleeper(q, k, s);
    WalkPasses(q, w.vacant, s, c.now + 1);
    assert (c.ready + Tasks(q[..k]))[|c.ready|..] == Tasks(q[..k]);
  }

  // ------------------------------------------------------ whole histories --

  /** At the tick of its time a dead one is ahead of it. */
  predicate Obstructed(w: Ward, changes: seq<Change>, s: Sleeper)
    decreases |changes|
  {
    changes != []
    && if changes[0] == Passes(Tick) && w.clock.now + 1 == s.wake then Behind(w.clock.queue, w.vacant, s)
       else Obstructed(StepPast(w, changes[0]), changes[1..], s)
  }

  lemma {:induction false} ReadyGrowsPast(w: Ward, changes: seq<Change>)
    ensures w.clock.ready <= RunPast(w, changes).clock.ready
    decreases |changes|
  {
    if changes != [] { ReadyGrowsPast(StepPast(w, changes[0]), changes[1..]); }
  }

  lemma Appended(a: seq<TaskId>, b: seq<TaskId>, c: seq<TaskId>, task: TaskId)
    requires a <= b <= c
    ensures task in c[|a|..] <==> task in b[|a|..] || task in c[|b|..]
  {
    assert c[|a|..] == b[|a|..] + c[|b|..];
  }

  /** Who is behind a dead one is readied no more. */
  lemma {:induction false} StaysBehind(w: Ward, changes: seq<Change>, s: Sleeper)
    requires Sorted(w.clock.queue) && Sleeps(w.clock.queue, s) && s.task !in w.vacant && Spares(changes, s.task)
    requires Behind(w.clock.queue, w.vacant, s)
    ensures w.clock.ready <= RunPast(w, changes).clock.ready
    ensures s.task !in RunPast(w, changes).clock.ready[|w.clock.ready|..]
    decreases |changes|
  {
    hide Sorted, Sleeps, Behind, TickPast;
    if changes != [] {
      var m, rest := StepPast(w, changes[0]), changes[1..];
      OneOfThem(changes, s.task);
      if changes[0] == Passes(Tick) { TickPastFacts(w, s); } else { StepSpares(w, changes[0], s); }
      StaysBehind(m, rest, s);
      Appended(w.clock.ready, m.clock.ready, RunPast(m, rest).clock.ready, s.task);
    }
  }

  lemma OneOfThem(changes: seq<Change>, task: TaskId)
    requires Spares(changes, task) && changes != []
    ensures Spares([changes[0]], task) && Spares(changes[1..], task)
  {
  }

  lemma {:induction false} SleeperIsExactPast(w: Ward, changes: seq<Change>, s: Sleeper)
    requires Sorted(w.clock.queue) && Sleeps(w.clock.queue, s) && s.task !in w.vacant && Spares(changes, s.task)
    requires w.clock.now < s.wake
    ensures w.clock.ready <= RunPast(w, changes).clock.ready
    ensures s.task in RunPast(w, changes).clock.ready[|w.clock.ready|..] <==>
      s.wake <= w.clock.now + TicksPassing(changes) && !Obstructed(w, changes, s)
    decreases |changes|
  {
    hide Sorted, Sleeps, Behind;
    if changes != [] {
      var m, rest := StepPast(w, changes[0]), changes[1..];
      OneOfThem(changes, s.task);
      ReadyGrowsPast(m, rest);
      if changes[0] != Passes(Tick) {
        StepSpares(w, changes[0], s);
        SleeperIsExactPast(m, rest, s);
      } else {
        TickPastFacts(w, s);
        Appended(w.clock.ready, m.clock.ready, RunPast(m, rest).clock.ready, s.task);
        if s.wake > w.clock.now + 1 {
          SleeperIsExactPast(m, rest, s);
        } else if Behind(w.clock.queue, w.vacant, s) {
          StaysBehind(m, rest, s);
        }
      }
    }
  }

  /** A task that delays n ticks, and that nothing else wakes, is readied by the n-th tick processed after that
      and by no earlier one, unless at that tick a task freed in its sleep is ahead of it on the list, and then
      by none at all. */
  lemma DelayIsExactUnlessObstructed(w: Ward, task: TaskId, n: nat, changes: seq<Change>)
    requires Sorted(w.clock.queue) && Absent(w.clock.queue, task)
    requires 0 < n && task !in w.vacant && Spares(changes, task)
    ensures var asleep := w.(clock := Delay(w.clock, task, n));
      && w.clock.ready <= RunPast(asleep, changes).clock.ready
      && (task in RunPast(asleep, changes).clock.ready[|w.clock.ready|..] <==>
          n <= TicksPassing(changes) && !Obstructed(asleep, changes, Sleeper(task, w.clock.now + n)))
  {
    InsertFacts(w.clock.queue, Sleeper(task, w.clock.now + n));
    SleeperIsExactPast(w.(clock := Delay(w.clock, task, n)), changes, Sleeper(task, w.clock.now + n));
  }

  function TickTimes(n: nat): seq<Change> {
    if n == 0 then [] else [Passes(Tick)] + TickTimes(n - 1)
  }

  /** A dead sleeper that is due, or will be, stops every tick from then on. */
  lemma {:induction false} DeadHeadStopsAll(w: Ward, n: nat)
    requires w.clock.queue != [] && w.clock.queue[0].task in w.vacant
    ensures RunPast(w, TickTimes(n)) == w.(clock := w.clock.(now := w.clock.now + n))
    decreases n
  {
    if n > 0 {
      assert TickTimes(n)[1..] == TickTimes(n - 1);
      assert w.clock.queue[0..] == w.clock.queue && w.clock.queue[..0] == [];
      DeadHeadStopsAll(StepPast(w, Passes(Tick)), n - 1);
    }
  }

  /** Task 1 sleeps until 1 and task 2 until 2; task 1 is freed, and however many ticks pass, task 2 sleeps on. */
  lemma DeadSleeperStopsAnother(n: nat)
    ensures var w := Ward(Clock(0, [Sleeper(1, 1), Sleeper(2, 2)], []), {});
      RunPast(w, [Frees(1)] + TickTimes(n)) == Ward(Clock(n, w.clock.queue, []), {1})
  {
    var w := Ward(Clock(0, [Sleeper(1, 1), Sleeper(2, 2)], []), {});
    assert ([Frees(1)] + TickTimes(n))[1..] == TickTimes(n) && StepPast(w, Frees(1)) == Ward(w.clock, {1});
    DeadHeadStopsAll(Ward(w.clock, {1}), n);
  }
}
