/** Delays in time that never wraps: what the two delayed lists, the wrapping tick and the next
    unblock time of the kernel amount to. */
module Sleepers {
  import opened Basics

  datatype Sleeper = Sleeper(task: TaskId, wake: nat)

  /** `ready` records every task a tick has readied, in order. */
  datatype Clock = Clock(now: nat, queue: seq<Sleeper>, ready: seq<TaskId>)

  /** How many at the front of the queue are due at time t. */
  function Due(queue: seq<Sleeper>, t: nat): (k: nat)
    ensures k <= |queue|
  {
    if queue == [] || queue[0].wake > t then 0 else 1 + Due(queue[1..], t)
  }

  function Tasks(queue: seq<Sleeper>): (tasks: seq<TaskId>)
    ensures |tasks| == |queue| && forall i :: 0 <= i < |queue| ==> tasks[i] == queue[i].task
  {
    if queue == [] then [] else [queue[0].task] + Tasks(queue[1..])
  }

  /** n ticks pass: everybody due by then is readied, soonest first. */
  function Advance(c: Clock, n: nat): Clock {
    var k := Due(c.queue, c.now + n);
    Clock(c.now + n, c.queue[k..], c.ready + Tasks(c.queue[..k]))
  }

  /** The place of a new sleeper: behind everybody who wakes no later. */
  function Insert(queue: seq<Sleeper>, s: Sleeper): seq<Sleeper> {
    if queue == [] || queue[0].wake > s.wake then [s] + queue
    else [queue[0]] + Insert(queue[1..], s)
  }

  function Delay(c: Clock, task: TaskId, n: nat): Clock {
    c.(queue := Insert(c.queue, Sleeper(task, c.now + n)))
  }

  /** A task woken by something else than time. */
  function Woken(queue: seq<Sleeper>, task: TaskId): seq<Sleeper> {
    if queue == [] then []
    else if queue[0].task == task then Woken(queue[1..], task)
    else [queue[0]] + Woken(queue[1..], task)
  }

  function Cancel(c: Clock, task: TaskId): Clock {
    c.(queue := Woken(c.queue, task))
  }

  // ----------------------------------------------------------- the laws --

  lemma {:induction false} DueIsPrefix(queue: seq<Sleeper>, k: nat, t: nat)
    requires k <= |queue|
    requires forall i :: 0 <= i < k ==> queue[i].wake <= t
    requires k < |queue| ==> queue[k].wake > t
    ensures Due(queue, t) == k
  {
    if k > 0 { DueIsPrefix(queue[1..], k - 1, t); }
  }

  lemma {:induction false} DueSplits(queue: seq<Sleeper>, t: nat)
    ensures forall i :: 0 <= i < Due(queue, t) ==> queue[i].wake <= t
    ensures Due(queue, t) < |queue| ==> queue[Due(queue, t)].wake > t
  {
    if queue != [] && queue[0].wake <= t {
      DueSplits(queue[1..], t);
      forall i | 0 <= i < Due(queue, t) ensures queue[i].wake <= t {
        if i > 0 { assert queue[i] == queue[1..][i - 1]; }
      }
    }
  }

  lemma {:induction false} TasksSplit(a: seq<Sleeper>, b: seq<Sleeper>)
    ensures Tasks(a + b) == Tasks(a) + Tasks(b)
  {
    if a == [] {
      assert a + b == b;
    } else {
      assert (a + b)[1..] == a[1..] + b;
      TasksSplit(a[1..], b);
    }
  }

  lemma {:induction false} DueTwice(queue: seq<Sleeper>, t: nat, u: nat)
    requires t <= u
    ensures Due(queue, t) <= Due(queue, u)
    ensures Due(queue, u) == Due(queue, t) + Due(queue[Due(queue, t)..], u)
  {
    if queue != [] && queue[0].wake <= t {
      DueTwice(queue[1..], t, u);
      assert queue[1..][Due(queue[1..], t)..] == queue[Due(queue, t)..];
    } else {
      assert queue[0..] == queue;
    }
  }

  /** Time adds up: so many ticks and then so many more are all of them at once. */
  lemma AdvanceAdds(c: Clock, m: nat, n: nat)
    ensures Advance(Advance(c, m), n) == Advance(c, m + n)
  {
    hide Due, Tasks;
    var q, t, u := c.queue, c.now + m, c.now + m + n;
    var j := Due(q, t);
    DueTwice(q, t, u);
    var k := Due(q, u);
    assert q[j..][k - j..] == q[k..];
    assert q[..k] == q[..j] + q[j..][..k - j];
    TasksSplit(q[..j], q[j..][..k - j]);
  }

  /** Where nobody is due, nothing but the time changes. */
  lemma NobodyDue(c: Clock, n: nat)
    requires forall i :: 0 <= i < |c.queue| ==> c.queue[i].wake > c.now + n
    ensures Advance(c, n) == c.(now := c.now + n)
  {
    DueIsPrefix(c.queue, 0, c.now + n);
    assert c.queue[0..] == c.queue && c.queue[..0] == [];
    assert Tasks(c.queue[..0]) == [];
  }

  /** n ticks, one after another. */
  function Ticked(c: Clock, n: nat): Clock {
    if n == 0 then c else Advance(Ticked(c, n - 1), 1)
  }

  /** Taken one at a time or all at once, n ticks are n ticks. */
  lemma {:induction false} TickedIsAdvance(c: Clock, n: nat)
    requires forall i :: 0 <= i < |c.queue| ==> c.queue[i].wake > c.now
    ensures Ticked(c, n) == Advance(c, n)
  {
    if n == 0 {
      NobodyDue(c, 0);
    } else {
      TickedIsAdvance(c, n - 1);
      AdvanceAdds(c, n - 1, 1);
    }
  }

  lemma {:induction false} TickedAdds(c: Clock, m: nat, n: nat)
    ensures Ticked(Ticked(c, m), n) == Ticked(c, m + n)
  {
    if n > 0 { TickedAdds(c, m, n - 1); }
  }

  function WakingBy(queue: seq<Sleeper>, t: nat): set<Sleeper> { set x | x in queue && x.wake <= t }

  function WakingAfter(queue: seq<Sleeper>, t: nat): set<Sleeper> { set x | x in queue && x.wake > t }

  lemma DueIsWaking(queue: seq<Sleeper>, t: nat)
    requires Sorted(queue)
    ensures Among(queue, WakingBy(queue, t)) == queue[..Due(queue, t)]
    ensures Among(queue, WakingAfter(queue, t)) == queue[Due(queue, t)..]
  {
    hide Due;
    var k := Due(queue, t);
    DueSplits(queue, t);
    assert forall i :: k <= i < |queue| ==> queue[i].wake > t;
    AmongHalves(queue, k, WakingBy(queue, t), WakingAfter(queue, t));
  }

  lemma {:induction false} InsertAtDue(queue: seq<Sleeper>, s: Sleeper)
    ensures var k := Due(queue, s.wake); Insert(queue, s) == queue[..k] + [s] + queue[k..]
  {
    if queue != [] && queue[0].wake <= s.wake {
      var rest, k := queue[1..], Due(queue[1..], s.wake);
      InsertAtDue(rest, s);
      assert queue[..k + 1] == [queue[0]] + rest[..k] && queue[k + 1..] == rest[k..];
    }
  }

  /** In a sorted queue a new sleeper stands right behind those who wake no later, and the others as they
      stood. */
  lemma InsertBehindEquals(queue: seq<Sleeper>, s: Sleeper)
    requires Sorted(queue)
    ensures Insert(queue, s) == Among(queue, WakingBy(queue, s.wake)) + [s] + Among(queue, WakingAfter(queue, s.wake))
    ensures Among(queue, WakingBy(queue, s.wake)) + Among(queue, WakingAfter(queue, s.wake)) == queue
  {
    hide Due, Insert, Sorted;
    InsertAtDue(queue, s);
    DueIsWaking(queue, s.wake);
  }

  /** Time readies exactly the sleepers whose time has come by then, in the order they wake, and leaves the
      others asleep as they stood. */
  lemma AdvanceExactly(c: Clock, n: nat)
    requires Sorted(c.queue)
    ensures var d, t := Advance(c, n), c.now + n;
      && d.now == t && d.queue == Among(c.queue, WakingAfter(c.queue, t))
      && d.ready == c.ready + Tasks(Among(c.queue, WakingBy(c.queue, t)))
  {
    hide Due, Tasks, Sorted;
    DueIsWaking(c.queue, c.now + n);
  }

  /** A wake-up takes a task's sleepers off the queue and leaves the others as they stood. */
  lemma {:induction false} WokenExactly(queue: seq<Sleeper>, task: TaskId)
    ensures Woken(queue, task) == Among(queue, set x | x in queue && x.task != task)
  {
    if queue != [] {
      var rest := queue[1..];
      assert queue == [queue[0]] + rest;
      WokenExactly(rest, task);
      AmongAlike(rest, set x | x in queue && x.task != task, set x | x in rest && x.task != task);
    }
  }

  // ---------------------------------------------- delays are exact, always --

  datatype Event = Tick | Sleep(task: TaskId, n: nat) | Wake(task: TaskId)

  function Step(c: Clock, e: Event): Clock {
    match e
    case Tick => Advance(c, 1)
    case Sleep(task, n) => Delay(c, task, n)
    case Wake(task) => Cancel(c, task)
  }

  function Run(c: Clock, events: seq<Event>): Clock
    decreases |events|
  {
    if events == [] then c else Run(Step(c, events[0]), events[1..])
  }

  function TicksIn(events: seq<Event>): nat {
    if events == [] then 0 else (if events[0].Tick? then 1 else 0) + TicksIn(events[1..])
  }

  predicate Sorted(queue: seq<Sleeper>) {
    forall i, j :: 0 <= i < j < |queue| ==> queue[i].wake <= queue[j].wake
  }

  /** Nothing in the run is about this task: it is not woken early and does not sleep again. */
  predicate Leaves(events: seq<Event>, task: TaskId) {
    forall i :: 0 <= i < |events| ==> events[i].Tick? || events[i].task != task
  }

  /** `s` is the one sleeper of its task. */
  predicate Sleeps(queue: seq<Sleeper>, s: Sleeper) {
    && s in queue
    && forall x :: x in queue && x.task == s.task ==> x == s
  }

  lemma {:induction false} InsertFacts(queue: seq<Sleeper>, s: Sleeper)
    ensures forall x :: x in Insert(queue, s) <==> x in queue || x == s
    ensures Sorted(queue) ==> Sorted(Insert(queue, s))
  {
    if queue != [] && queue[0].wake <= s.wake {
      var rest := Insert(queue[1..], s);
      InsertFacts(queue[1..], s);
      assert queue == [queue[0]] + queue[1..];
      if Sorted(queue) {
        assert Sorted(queue[1..]);
        forall i | 0 <= i < |rest| ensures queue[0].wake <= rest[i].wake {
          assert rest[i] in rest;
          if rest[i] in queue[1..] {
            var k :| 0 <= k < |queue[1..]| && queue[1..][k] == rest[i];
            assert queue[1..][k] == queue[k + 1];
          }
        }
      }
    }
  }

  lemma {:induction false} WokenFacts(queue: seq<Sleeper>, task: TaskId)
    ensures forall x :: x in Woken(queue, task) <==> x in queue && x.task != task
    ensures Sorted(queue) ==> Sorted(Woken(queue, task))
  {
    if queue != [] {
      var rest := Woken(queue[1..], task);
      WokenFacts(queue[1..], task);
      assert queue == [queue[0]] + queue[1..];
      if Sorted(queue) {
        assert Sorted(queue[1..]);
        forall i | 0 <= i < |rest| ensures queue[0].wake <= rest[i].wake {
          assert rest[i] in rest && rest[i] in queue[1..];
          var k :| 0 <= k < |queue[1..]| && queue[1..][k] == rest[i];
          assert queue[1..][k] == queue[k + 1];
        }
      }
    }
  }

  lemma {:induction false} TaskIn(queue: seq<Sleeper>, task: TaskId)
    ensures task in Tasks(queue) <==> exists x :: x in queue && x.task == task
  {
    if queue != [] {
      TaskIn(queue[1..], task);
      assert queue == [queue[0]] + queue[1..];
    }
  }

  lemma {:induction false} DueCovers(queue: seq<Sleeper>, at: nat, t: nat)
    requires Sorted(queue) && at < |queue| && queue[at].wake <= t
    ensures at < Due(queue, t)
  {
    assert queue[0].wake <= queue[at].wake;
    if at > 0 { DueCovers(queue[1..], at - 1, t); }
  }

  /** One tick readies a sleeper whose time it is ... */
  lemma TickReadies(c: Clock, s: Sleeper)
    requires Sorted(c.queue) && Sleeps(c.queue, s) && s.wake == c.now + 1
    ensures s.task in Advance(c, 1).ready[|c.ready|..]
  {
    hide Due, Tasks;
    var k := Due(c.queue, c.now + 1);
    TaskIn(c.queue[..k], s.task);
    var at: nat :| at < |c.queue| && c.queue[at] == s;
    DueCovers(c.queue, at, c.now + 1);
    assert c.queue[..k][at] == s;
  }

  /** ... and leaves alone one whose time it is not. */
  lemma TickSpares(c: Clock, s: Sleeper)
    requires Sleeps(c.queue, s) && s.wake > c.now + 1
    ensures s.task !in Advance(c, 1).ready[|c.ready|..]
    ensures Sleeps(Advance(c, 1).queue, s)
  {
    hide Due, Tasks;
    var k := Due(c.queue, c.now + 1);
    DueSplits(c.queue, c.now + 1);
    TaskIn(c.queue[..k], s.task);
    var at :| 0 <= at < |c.queue| && c.queue[at] == s;
    assert k <= at;
    assert c.queue[k..][at - k] == s;
  }

  lemma TickKeepsSorted(c: Clock)
    requires Sorted(c.queue)
    ensures Sorted(Advance(c, 1).queue)
  {
  }

  lemma OtherStep(c: Clock, e: Event, s: Sleeper)
    requires Sorted(c.queue) && Sleeps(c.queue, s) && !e.Tick? && e.task != s.task
    ensures Step(c, e).now == c.now && Step(c, e).ready == c.ready
    ensures Sorted(Step(c, e).queue) && Sleeps(Step(c, e).queue, s)
  {
    if e.Sleep? {
      InsertFacts(c.queue, Sleeper(e.task, c.now + e.n));
    } else {
      WokenFacts(c.queue, e.task);
    }
  }

  lemma {:induction false} ReadyGrows(c: Clock, events: seq<Event>)
    ensures c.ready <= Run(c, events).ready
    ensures Run(c, events).now == c.now + TicksIn(events)
    decreases |events|
  {
    if events != [] { ReadyGrows(Step(c, events[0]), events[1..]); }
  }

  lemma {:induction false} SleeperIsExact(c: Clock, events: seq<Event>, s: Sleeper)
    requires Sorted(c.queue) && Sleeps(c.queue, s) && c.now < s.wake && Leaves(events, s.task)
    ensures c.ready <= Run(c, events).ready
    ensures s.task in Run(c, events).ready[|c.ready|..] <==> s.wake <= c.now + TicksIn(events)
    decreases |events|
  {
    hide Due, Tasks, Delay, Cancel, Sorted, Sleeps;
    if events == [] {
      assert c.ready[|c.ready|..] == [];
    } else {
      var d, rest := Step(c, events[0]), events[1..];
      assert Leaves(rest, s.task);
      ReadyGrows(d, rest);
      var all := Run(c, events).ready;
      if !events[0].Tick? {
        OtherStep(c, events[0], s);
        SleeperIsExact(d, rest, s);
      } else if s.wake == c.now + 1 {
        TickReadies(c, s);
        var k :| 0 <= k < |d.ready[|c.ready|..]| && d.ready[|c.ready|..][k] == s.task;
        assert all[|c.ready|..][k] == s.task;
      } else {
        TickSpares(c, s);
        TickKeepsSorted(c);
        SleeperIsExact(d, rest, s);
        assert all[|c.ready|..] == d.ready[|c.ready|..] + all[|d.ready|..];
      }
    }
  }

  lemma StepKeepsAwake(c: Clock, e: Event, task: TaskId)
    requires (forall x :: x in c.queue ==> x.task != task) && (e.Sleep? ==> e.task != task)
    ensures var d := Step(c, e);
      && c.ready <= d.ready && task !in d.ready[|c.ready|..] && forall x :: x in d.queue ==> x.task != task
  {
    hide Due, Tasks, Insert, Woken;
    match e {
      case Tick => TaskIn(c.queue[..Due(c.queue, c.now + 1)], task);
      case Sleep(u, n) => InsertFacts(c.queue, Sleeper(u, c.now + n));
      case Wake(u) => WokenFacts(c.queue, u);
    }
  }

  /** Whoever does not sleep, and does not go to sleep, is readied by no tick: in particular a task that was woken
      before its time is not readied a second time when its time comes. */
  lemma {:induction false} AwakeIsNotReadied(c: Clock, events: seq<Event>, task: TaskId)
    requires (forall x :: x in c.queue ==> x.task != task)
    requires forall i :: 0 <= i < |events| && events[i].Sleep? ==> events[i].task != task
    ensures c.ready <= Run(c, events).ready && task !in Run(c, events).ready[|c.ready|..]
    decreases |events|
  {
    hide Step;
    ReadyGrows(c, events);
    if events == [] {
      assert c.ready[|c.ready|..] == [];
    } else {
      var d, rest := Step(c, events[0]), events[1..];
      StepKeepsAwake(c, events[0], task);
      AwakeIsNotReadied(d, rest, task);
      ReadyGrows(d, rest);
      var all := Run(c, events).ready;
      assert all[|c.ready|..] == d.ready[|c.ready|..] + all[|d.ready|..];
    }
  }

  lemma WokenIsNotReadiedAgain(c: Clock, events: seq<Event>, task: TaskId)
    requires forall i :: 0 <= i < |events| && events[i].Sleep? ==> events[i].task != task
    ensures var woken := Cancel(c, task);
      && woken.now == c.now && woken.ready == c.ready
      && woken.queue == Among(c.queue, set x | x in c.queue && x.task != task)
      && c.ready <= Run(woken, events).ready && task !in Run(woken, events).ready[|c.ready|..]
  {
    WokenFacts(c.queue, task);
    WokenExactly(c.queue, task);
    AwakeIsNotReadied(Cancel(c, task), events, task);
  }

  /** A task that delays n ticks, and that nothing else wakes, is readied by the n-th tick processed
      after that and by no earlier one, whatever other tasks do meanwhile. */
  lemma DelayIsExact(c: Clock, task: TaskId, n: nat, events: seq<Event>)
    requires Sorted(c.queue) && (forall x :: x in c.queue ==> x.task != task)
    requires 0 < n && Leaves(events, task)
    ensures var asleep := Delay(c, task, n);
      && asleep.ready <= Run(asleep, events).ready
      && (task in Run(asleep, events).ready[|c.ready|..] <==> n <= TicksIn(events))
  {
    InsertFacts(c.queue, Sleeper(task, c.now + n));
    SleeperIsExact(Delay(c, task, n), events, Sleeper(task, c.now + n));
  }
}
