/** The lock of a queue in queue.rs: while a task walks the event lists, interrupts count what they
    did, and the unlock wakes the waiters that are owed for it. */
module QueueLocks {
  import opened Basics

  const UNLOCKED := -1
  const LOCKED_UNMODIFIED := 0

  datatype Waiter = Waiter(task: TaskId, priority: nat)

  /** `tasks` is the task count, which caps the two counts. */
  datatype Queue = Queue(waiting: nat, length: nat, txLock: int, rxLock: int,
    receivers: seq<Waiter>, senders: seq<Waiter>, tasks: nat, readied: seq<TaskId>)

  // ------------------------------------------------- what the code does --

  /** `increment_tx_lock`, `increment_rx_lock`: an eight-bit count, capped at the task count. */
  function Increment(lock: int, tasks: nat): int {
    if lock < 0 || lock < tasks then (if lock == 127 then -128 else lock + 1) else lock
  }

  function Lock(q: Queue): Queue {
    q.(rxLock := if q.rxLock == UNLOCKED then LOCKED_UNMODIFIED else q.rxLock,
       txLock := if q.txLock == UNLOCKED then LOCKED_UNMODIFIED else q.txLock)
  }

  function Names(waiters: seq<Waiter>): (names: seq<TaskId>)
    ensures |names| == |waiters|
  {
    seq(|waiters|, i requires 0 <= i < |waiters| => waiters[i].task)
  }

  /** The first n waiters of a list are woken, or as many as there are. */
  function FirstOf(waiters: seq<Waiter>, n: int): nat {
    if n <= 0 then 0 else if n < |waiters| then n else |waiters|
  }

  function WakeReceivers(q: Queue, n: int): Queue {
    var k := FirstOf(q.receivers, n);
    q.(receivers := q.receivers[k..], readied := q.readied + Names(q.receivers[..k]))
  }

  function WakeSenders(q: Queue, n: int): Queue {
    var k := FirstOf(q.senders, n);
    q.(senders := q.senders[k..], readied := q.readied + Names(q.senders[..k]))
  }

  /** `send_from_isr_locked`, outside any set. */
  function SendFromIsr(q: Queue, overwrite: bool): Queue {
    if q.waiting >= q.length && !overwrite then q else
      var r := q.(waiting := if overwrite && q.waiting > 0 then q.waiting else q.waiting + 1);
      if q.txLock == UNLOCKED then WakeReceivers(r, 1) else r.(txLock := Increment(q.txLock, q.tasks))
  }

  /** `queue_receive_from_isr`. */
  function ReceiveFromIsr(q: Queue): Queue {
    if q.waiting == 0 then q else
      var r := q.(waiting := q.waiting - 1);
      if q.rxLock == UNLOCKED then WakeSenders(r, 1) else r.(rxLock := Increment(q.rxLock, q.tasks))
  }

  /** `unlock_queue`: both halves. */
  function Unlock(q: Queue): Queue {
    WakeSenders(WakeReceivers(q, q.txLock), q.rxLock).(txLock := UNLOCKED, rxLock := UNLOCKED)
  }

  /** `place_on_event_list`: behind everybody of the same priority or more. */
  function Park(waiters: seq<Waiter>, w: Waiter): seq<Waiter> {
    if waiters == [] || waiters[0].priority < w.priority then [w] + waiters
    else [waiters[0]] + Park(waiters[1..], w)
  }

  // ------------------------------------------------- the counts are exact --

  function Min(a: nat, b: nat): nat { if a < b then a else b }

  /** The count after n interrupts have used the queue while it was locked. */
  function Counted(n: nat, tasks: nat): int {
    if n == 0 then LOCKED_UNMODIFIED else Increment(Counted(n - 1, tasks), tasks)
  }

  lemma {:induction false} CountIsCapped(n: nat, tasks: nat)
    requires tasks <= 127
    ensures Counted(n, tasks) == Min(n, tasks)
  {
    if n > 0 { CountIsCapped(n - 1, tasks); }
  }

  lemma {:induction false} CountIsPlain(n: nat, tasks: nat)
    requires tasks > 127 && n <= 127
    ensures Counted(n, tasks) == n
  {
    if n > 0 { CountIsPlain(n - 1, tasks); }
  }

  /** The capped count is a count exactly while the task count fits the eight bits; above that, the
      128th use turns it negative and everything owed is forgotten. */
  lemma CapFitsEightBits(tasks: nat)
    ensures (forall n: nat :: Counted(n, tasks) == Min(n, tasks)) <==> tasks <= 127
  {
    if tasks <= 127 {
      forall n: nat ensures Counted(n, tasks) == Min(n, tasks) {
        CountIsCapped(n, tasks);
      }
    } else {
      CountIsPlain(127, tasks);
      assert Counted(128, tasks) == -128;
    }
  }

  // ------------------------------------------------ between lock and unlock --

  datatype Event = Sent(overwrite: bool) | Received | ReceiverParks(w: Waiter) | SenderParks(w: Waiter)

  function Step(q: Queue, e: Event): Queue {
    match e
    case Sent(overwrite) => SendFromIsr(q, overwrite)
    case Received => ReceiveFromIsr(q)
    case ReceiverParks(w) => q.(receivers := Park(q.receivers, w))
    case SenderParks(w) => q.(senders := Park(q.senders, w))
  }

  function Run(q: Queue, events: seq<Event>): Queue {
    if events == [] then q else Step(Run(q, events[..|events| - 1]), events[|events| - 1])
  }

  /** How many of the interrupts' sends and receives went through. */
  function Sends(q: Queue, events: seq<Event>): nat {
    if events == [] then 0 else
      var before, e := events[..|events| - 1], events[|events| - 1];
      var p := Run(q, before);
      Sends(q, before) + if e.Sent? && (p.waiting < p.length || e.overwrite) then 1 else 0
  }

  function Receives(q: Queue, events: seq<Event>): nat {
    if events == [] then 0 else
      var before, e := events[..|events| - 1], events[|events| - 1];
      Receives(q, before) + if e.Received? && Run(q, before).waiting > 0 then 1 else 0
  }

  lemma {:induction false} LockedRun(q: Queue, events: seq<Event>)
    requires q.txLock == UNLOCKED && q.rxLock == UNLOCKED && q.tasks <= 127
    ensures var r := Run(Lock(q), events);
      && r.txLock == Min(Sends(Lock(q), events), q.tasks)
      && r.rxLock == Min(Receives(Lock(q), events), q.tasks)
      && r.readied == q.readied && r.tasks == q.tasks
  {
    if events != [] { LockedRun(q, events[..|events| - 1]); }
  }

  /** No wake-up is lost to the lock.  Whatever interrupts did to the queue and whoever parked while it
      was locked, the unlock wakes of the receivers parked by then the first as many as there were
      sends, and of the senders as many as there were receives; the cap changes nothing. */
  lemma NoWakeUpIsLost(q: Queue, events: seq<Event>)
    requires q.txLock == UNLOCKED && q.rxLock == UNLOCKED && q.tasks <= 127
    requires var r := Run(Lock(q), events); |r.receivers| <= q.tasks && |r.senders| <= q.tasks
    ensures var r := Run(Lock(q), events);
      var woken := Min(Sends(Lock(q), events), |r.receivers|);
      var freed := Min(Receives(Lock(q), events), |r.senders|);
      var u := Unlock(r);
      && u.readied == q.readied + Names(r.receivers[..woken]) + Names(r.senders[..freed])
      && u.receivers == r.receivers[woken..] && u.senders == r.senders[freed..]
      && u.waiting == r.waiting && u.txLock == u.rxLock == UNLOCKED
  {
    hide Names, Run, Lock;
    LockedRun(q, events);
  }

  // ---------------------------------- histories of locked and unlocked stretches --

  datatype Action = Does(event: Event) | Locks | Unlocks

  function Act(q: Queue, a: Action): Queue {
    match a
    case Does(e) => Step(q, e)
    case Locks => Lock(q)
    case Unlocks => Unlock(q)
  }

  function RunAll(q: Queue, actions: seq<Action>): Queue {
    if actions == [] then q else Act(RunAll(q, actions[..|actions| - 1]), actions[|actions| - 1])
  }

  /** How many sends went through, how many receivers parked, and how many of the sends an unlock has still to
      answer. */
  datatype Tally = Tally(sent: nat, parked: nat, owed: nat)

  function Tallied(q: Queue, actions: seq<Action>): Tally {
    if actions == [] then Tally(0, 0, 0) else
      var before, a := actions[..|actions| - 1], actions[|actions| - 1];
      var p, t := RunAll(q, before), Tallied(q, before);
      match a
      case Does(Sent(overwrite)) =>
        if p.waiting < p.length || overwrite then t.(sent := t.sent + 1, owed := if p.txLock == -1 then t.owed else t.owed + 1) else t
      case Does(ReceiverParks(_)) => t.(parked := t.parked + 1)
      case Unlocks => t.(owed := 0)
      case _ => t
  }

  /** The receivers parked are never more than the tasks counted. */
  predicate WithinTasks(q: Queue, actions: seq<Action>) {
    forall k :: 0 <= k <= |actions| ==> |RunAll(q, actions[..k]).receivers| <= q.tasks
  }

  predicate ParksOnce(actions: seq<Action>, w: Waiter) {
    forall a :: a in actions ==> a != Does(ReceiverParks(w))
  }

  lemma {:induction false} ParkMember(waiters: seq<Waiter>, w: Waiter)
    ensures |Park(waiters, w)| == |waiters| + 1
    ensures forall v :: v in Park(waiters, w) <==> v in waiters || v == w
  {
    if waiters != [] && waiters[0].priority >= w.priority {
      ParkMember(waiters[1..], w);
      assert waiters == [waiters[0]] + waiters[1..];
    }
  }

  lemma WithinSoFar(q: Queue, actions: seq<Action>)
    requires WithinTasks(q, actions) && actions != []
    ensures WithinTasks(q, actions[..|actions| - 1])
    ensures |RunAll(q, actions[..|actions| - 1]).receivers| <= q.tasks
  {
    hide RunAll;
    var before := actions[..|actions| - 1];
    assert forall k :: 0 <= k <= |before| ==> before[..k] == actions[..k];
    assert before[..|before|] == before;
  }

  /** No receiver stays parked while an accepted send goes unanswered.  Over any history of interrupts, parked
      tasks, locks and unlocks from an unlocked queue: as long as one receiver that was parked at the start
      stays parked, every send that went through has taken a receiver off the list, but for those made under
      the present lock; and of those the lock keeps count. */
  lemma {:induction false} NoSendGoesUnanswered(q: Queue, actions: seq<Action>, w: Waiter)
    requires q.txLock == q.rxLock == UNLOCKED && q.tasks <= 127
    requires WithinTasks(q, actions) && ParksOnce(actions, w)
    requires w in RunAll(q, actions).receivers
    ensures var r, t := RunAll(q, actions), Tallied(q, actions);
      && w in q.receivers && r.tasks == q.tasks
      && |q.receivers| + t.parked == |r.receivers| + t.sent - t.owed
      && (r.txLock == -1 ==> t.owed == 0)
      && (r.txLock != -1 ==> r.txLock == Min(t.owed, q.tasks))
  {
    if actions != [] {
      var before, a := actions[..|actions| - 1], actions[|actions| - 1];
      var p := RunAll(q, before);
      WithinSoFar(q, actions);
      assert a in actions && forall b :: b in before ==> b in actions;
      StaysParked(p, a, w);
      NoSendGoesUnanswered(q, before, w);
      ActTallies(q, before, a, w);
      assert actions == before + [a];
    }
  }

  lemma StaysParked(p: Queue, a: Action, w: Waiter)
    requires w in Act(p, a).receivers && a != Does(ReceiverParks(w))
    ensures w in p.receivers
  {
    hide Names;
    match a
    case Does(ReceiverParks(v)) => ParkMember(p.receivers, v);
    case _ =>
  }

  lemma ActTallies(q: Queue, before: seq<Action>, a: Action, w: Waiter)
    requires q.tasks <= 127
    requires var p, t := RunAll(q, before), Tallied(q, before);
      && w in p.receivers && w in Act(p, a).receivers && p.tasks == q.tasks && |p.receivers| <= q.tasks
      && |q.receivers| + t.parked == |p.receivers| + t.sent - t.owed
      && (p.txLock == -1 ==> t.owed == 0) && (p.txLock != -1 ==> p.txLock == Min(t.owed, q.tasks))
    ensures var r, t := Act(RunAll(q, before), a), Tallied(q, before + [a]);
      && r.tasks == q.tasks && |q.receivers| + t.parked == |r.receivers| + t.sent - t.owed
      && (r.txLock == -1 ==> t.owed == 0) && (r.txLock != -1 ==> r.txLock == Min(t.owed, q.tasks))
  {
    hide Names, RunAll, Park;
    assert (before + [a])[..|before|] == before;
    match a
    case Does(ReceiverParks(v)) => ParkMember(RunAll(q, before).receivers, v);
    case _ =>
  }

  // --------------------------------------------------------- highest first --

  ghost predicate ByPriority(waiters: seq<Waiter>) {
    forall i, j :: 0 <= i < j < |waiters| ==> waiters[i].priority >= waiters[j].priority
  }

  /** How many of the waiters come before a new one: all of its priority or more. */
  function PlaceOf(waiters: seq<Waiter>, w: Waiter): (k: nat)
    ensures k <= |waiters|
  {
    if waiters == [] || waiters[0].priority < w.priority then 0 else 1 + PlaceOf(waiters[1..], w)
  }

  lemma {:induction false} ParkAt(waiters: seq<Waiter>, w: Waiter)
    ensures var k := PlaceOf(waiters, w); Park(waiters, w) == waiters[..k] + [w] + waiters[k..]
  {
    if waiters != [] && waiters[0].priority >= w.priority {
      ParkAt(waiters[1..], w);
      var rest, k := waiters[1..], PlaceOf(waiters[1..], w);
      assert waiters[..k + 1] == [waiters[0]] + rest[..k] && waiters[k + 1..] == rest[k..];
      assert [waiters[0]] + (rest[..k] + [w] + rest[k..]) == waiters[..k + 1] + [w] + waiters[k + 1..];
    }
  }

  lemma {:induction false} PlaceAmongPriorities(waiters: seq<Waiter>, w: Waiter)
    requires ByPriority(waiters)
    ensures var k := PlaceOf(waiters, w);
      && (forall i :: 0 <= i < k ==> waiters[i].priority >= w.priority)
      && (forall i :: k <= i < |waiters| ==> waiters[i].priority < w.priority)
  {
    if waiters != [] && waiters[0].priority >= w.priority {
      var rest := waiters[1..];
      PlaceAmongPriorities(rest, w);
      assert forall i :: 0 < i < |waiters| ==> waiters[i] == rest[i - 1];
    }
  }

  /** A new waiter stands right behind those of its priority or more, and the others as they stood. */
  lemma ParkBehindEquals(waiters: seq<Waiter>, w: Waiter)
    requires ByPriority(waiters)
    ensures var k := PlaceOf(waiters, w);
      && Park(waiters, w) == waiters[..k] + [w] + waiters[k..]
      && (forall i :: 0 <= i < k ==> waiters[i].priority >= w.priority)
      && (forall i :: k <= i < |waiters| ==> waiters[i].priority < w.priority)
  {
    hide Park, PlaceOf;
    ParkAt(waiters, w);
    PlaceAmongPriorities(waiters, w);
  }

  lemma ParkFacts(waiters: seq<Waiter>, w: Waiter)
    requires ByPriority(waiters)
    ensures ByPriority(Park(waiters, w)) && multiset(Park(waiters, w)) == multiset(waiters) + multiset{w}
  {
    hide Park, PlaceOf, ByPriority;
    ParkBehindEquals(waiters, w);
    var k := PlaceOf(waiters, w);
    InBetween(waiters, k, w);
    assert waiters == waiters[..k] + waiters[k..];
  }

  lemma InBetween(waiters: seq<Waiter>, k: nat, w: Waiter)
    requires ByPriority(waiters) && k <= |waiters|
    requires forall i :: 0 <= i < k ==> waiters[i].priority >= w.priority
    requires forall i :: k <= i < |waiters| ==> waiters[i].priority < w.priority
    ensures ByPriority(waiters[..k] + [w] + waiters[k..])
  {
    var after := waiters[..k] + [w] + waiters[k..];
    assert forall i :: 0 <= i < |after| ==> after[i] == if i < k then waiters[i] else if i == k then w else waiters[i - 1];
  }

  lemma {:induction false} RunKeepsOrder(q: Queue, events: seq<Event>)
    requires ByPriority(q.receivers) && ByPriority(q.senders)
    ensures ByPriority(Run(q, events).receivers) && ByPriority(Run(q, events).senders)
  {
    hide Increment, Names;
    if events != [] {
      var p, e := Run(q, events[..|events| - 1]), events[|events| - 1];
      RunKeepsOrder(q, events[..|events| - 1]);
      match e
      case ReceiverParks(w) => ParkFacts(p.receivers, w);
      case SenderParks(w) => ParkFacts(p.senders, w);
      case _ =>
    }
  }

  /** Nobody the unlock leaves waiting outranks anybody it wakes, on either list. */
  lemma WokenAreHighest(q: Queue, events: seq<Event>, i: nat, j: nat)
    requires ByPriority(q.receivers) && ByPriority(q.senders)
    ensures var r := Run(Lock(q), events);
      && (i < FirstOf(r.receivers, r.txLock) <= j < |r.receivers| ==> r.receivers[i].priority >= r.receivers[j].priority)
      && (i < FirstOf(r.senders, r.rxLock) <= j < |r.senders| ==> r.senders[i].priority >= r.senders[j].priority)
  {
    RunKeepsOrder(Lock(q), events);
  }

  // ------------------------------------------------------------ the queue --

  lemma OneName(waiters: seq<Waiter>)
    requires waiters != []
    ensures Names(waiters[..1]) == [waiters[0].task]
  {
  }

  lemma NoName(waiters: seq<Waiter>)
    ensures Names(waiters[..0]) == [] && waiters[0..] == waiters
  {
  }

  lemma NextName(waiters: seq<Waiter>, k: nat)
    requires k < |waiters|
    ensures Names(waiters[..k + 1]) == Names(waiters[..k]) + [waiters[k].task]
    ensures waiters[k..][1..] == waiters[k + 1..] && waiters[k..][0] == waiters[k]
  {
  }

  /** The first n of a list, or all there are, leave it and are readied in their order. */
  ghost predicate WokenFrom(was: seq<Waiter>, now: seq<Waiter>, before: seq<TaskId>, readied: seq<TaskId>, n: int) {
    var k := |was| - |now|;
    && 0 <= k && now == was[k..] && k == (if n < 0 then 0 else if n < |was| then n else |was|)
    && |readied| == |before| + k && readied[..|before|] == before
    && forall i :: 0 <= i < k ==> readied[|before| + i] == was[i].task
  }

  class LockableQueue {
    const length: nat
    var waiting: nat
    var txLock: int
    var rxLock: int
    var receivers: seq<Waiter>
    var senders: seq<Waiter>
    var tasks: nat
    var readied: seq<TaskId>

    function View(): Queue
      reads this
    {
      Queue(waiting, length, txLock, rxLock, receivers, senders, tasks, readied)
    }

    constructor (length: nat, tasks: nat)
      ensures View() == Queue(0, length, UNLOCKED, UNLOCKED, [], [], tasks, [])
    {
      this.length, this.tasks := length, tasks;
      waiting, txLock, rxLock, receivers, senders, readied := 0, UNLOCKED, UNLOCKED, [], [], [];
    }

    method LockQueue()
      modifies this`txLock, this`rxLock
      ensures View() == Lock(old(View()))
      ensures txLock == (if old(txLock) == -1 then 0 else old(txLock)) && rxLock == (if old(rxLock) == -1 then 0 else old(rxLock))
    {
      if rxLock == UNLOCKED { rxLock := LOCKED_UNMODIFIED; }
      if txLock == UNLOCKED { txLock := LOCKED_UNMODIFIED; }
    }

    /** `remove_from_event_list`, of either list. */
    method RemoveFromReceivers()
      requires receivers != []
      modifies this`receivers, this`readied
      ensures receivers == old(receivers)[1..] && readied == old(readied) + [old(receivers)[0].task]
    {
      readied := readied + [receivers[0].task];
      receivers := receivers[1..];
    }

    method RemoveFromSenders()
      requires senders != []
      modifies this`senders, this`readied
      ensures senders == old(senders)[1..] && readied == old(readied) + [old(senders)[0].task]
    {
      readied := readied + [senders[0].task];
      senders := senders[1..];
    }

    method QueueSendFromIsr(overwrite: bool) returns (ok: bool)
      modifies this
      ensures View() == SendFromIsr(old(View()), overwrite)
      ensures ok == (old(waiting) < length || overwrite)
      ensures !ok ==> View() == old(View())
      ensures ok ==> waiting == old(waiting) + if overwrite && old(waiting) > 0 then 0 else 1
      ensures ok && old(txLock) == -1 && old(receivers) != [] ==>
        receivers == old(receivers)[1..] && readied == old(readied) + [old(receivers)[0].task]
      ensures ok && (old(txLock) != -1 || old(receivers) == []) ==> receivers == old(receivers) && readied == old(readied)
      ensures ok && -1 < old(txLock) < 127 ==> txLock == if old(txLock) < tasks then old(txLock) + 1 else old(txLock)
      ensures ok && old(txLock) == -1 ==> txLock == -1
      ensures senders == old(senders) && rxLock == old(rxLock) && tasks == old(tasks)
    {
      if waiting >= length && !overwrite {
        return false;
      }
      ok := true;
      if !(overwrite && waiting > 0) {
        waiting := waiting + 1;
      }
      if txLock == UNLOCKED {
        if receivers != [] {
          OneName(receivers);
          RemoveFromReceivers();
        } else {
          NoName(receivers);
        }
      } else {
        txLock := Increment(txLock, tasks);
      }
    }

    method QueueReceiveFromIsr() returns (ok: bool)
      modifies this
      ensures View() == ReceiveFromIsr(old(View())) && ok == (old(waiting) > 0)
      ensures !ok ==> View() == old(View())
      ensures ok ==> waiting == old(waiting) - 1
      ensures ok && old(rxLock) == -1 && old(senders) != [] ==>
        senders == old(senders)[1..] && readied == old(readied) + [old(senders)[0].task]
      ensures ok && (old(rxLock) != -1 || old(senders) == []) ==> senders == old(senders) && readied == old(readied)
      ensures ok && -1 < old(rxLock) < 127 ==> rxLock == if old(rxLock) < tasks then old(rxLock) + 1 else old(rxLock)
      ensures ok && old(rxLock) == -1 ==> rxLock == -1
      ensures receivers == old(receivers) && txLock == old(txLock) && tasks == old(tasks)
    {
      if waiting == 0 {
        return false;
      }
      ok := true;
      waiting := waiting - 1;
      if rxLock == UNLOCKED {
        if senders != [] {
          OneName(senders);
          RemoveFromSenders();
        } else {
          NoName(senders);
        }
      } else {
        rxLock := Increment(rxLock, tasks);
      }
    }

    /** `unlock_drain`, of the receivers. */
    method DrainTx()
      modifies this`txLock, this`receivers, this`readied
      ensures View() == WakeReceivers(old(View()), old(txLock)).(txLock := UNLOCKED)
      ensures txLock == -1 && WokenFrom(old(receivers), receivers, old(readied), readied, old(txLock))
    {
      var lock := txLock;
      ghost var all, k := receivers, 0;
      NoName(all);
      while lock > LOCKED_UNMODIFIED && receivers != []
        invariant 0 <= k <= |all| && receivers == all[k..] && readied == old(readied) + Names(all[..k])
        invariant (lock == old(txLock) && k == 0) || (0 <= lock && k == old(txLock) - lock)
        decreases |receivers|
      {
        NextName(all, k);
        RemoveFromReceivers();
        lock := lock - 1;
        k := k + 1;
      }
      assert k == FirstOf(all, old(txLock));
      txLock := UNLOCKED;
    }

    method DrainRx()
      modifies this`rxLock, this`senders, this`readied
      ensures View() == WakeSenders(old(View()), old(rxLock)).(rxLock := UNLOCKED)
      ensures rxLock == -1 && WokenFrom(old(senders), senders, old(readied), readied, old(rxLock))
    {
      var lock := rxLock;
      ghost var all, k := senders, 0;
      NoName(all);
      while lock > LOCKED_UNMODIFIED && senders != []
        invariant 0 <= k <= |all| && senders == all[k..] && readied == old(readied) + Names(all[..k])
        invariant (lock == old(rxLock) && k == 0) || (0 <= lock && k == old(rxLock) - lock)
        decreases |senders|
      {
        NextName(all, k);
        RemoveFromSenders();
        lock := lock - 1;
        k := k + 1;
      }
      assert k == FirstOf(all, old(rxLock));
      rxLock := UNLOCKED;
    }

    method UnlockQueue()
      modifies this`txLock, this`rxLock, this`receivers, this`senders, this`readied
      ensures View() == Unlock(old(View()))
      ensures txLock == -1 && rxLock == -1
      ensures exists between ::
        && WokenFrom(old(receivers), receivers, old(readied), between, old(txLock))
        && WokenFrom(old(senders), senders, between, readied, old(rxLock))
    {
      hide Names, FirstOf, WokenFrom;
      DrainTx();
      DrainRx();
    }

    /** `queue_reset`, besides the ring: both halves are unlocked without a drain, and one sender, who was
        parked on a full queue, is woken; the receivers stay. */
    method QueueReset()
      modifies this`waiting, this`txLock, this`rxLock, this`senders, this`readied
      ensures waiting == 0 && txLock == UNLOCKED && rxLock == UNLOCKED
      ensures old(senders) == [] ==> senders == [] && readied == old(readied)
      ensures old(senders) != [] ==> senders == old(senders)[1..] && readied == old(readied) + [old(senders)[0].task]
    {
      waiting, rxLock, txLock := 0, UNLOCKED, UNLOCKED;
      if senders != [] {
        RemoveFromSenders();
      }
    }
  }
}
