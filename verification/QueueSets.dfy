/** Queue sets of queue.rs: each arrival at a member is announced once on the set, at once or when the
    member's lock is given up. */
module QueueSets {
  import opened Basics
  import opened QueueLocks

  datatype Member = Member(waiting: nat, length: nat, lock: int)

  /** `contents` is what is on the set queue; `picked` the selections whose item has not been received
      yet. */
  datatype Set = Set(members: map<Handle, Member>, contents: seq<Handle>, size: nat, tasks: nat, picked: multiset<Handle>)

  // ------------------------------------------------- what the code does --

  /** `notify_queue_set_container`: dropped where the set is full. */
  function Notify(s: Set, h: Handle): Set {
    if |s.contents| >= s.size then s else s.(contents := s.contents + [h])
  }

  function NotifyTimes(s: Set, h: Handle, n: int): Set {
    if n <= 0 then s else Notify(NotifyTimes(s, h, n - 1), h)
  }

  /** A send by an interrupt; only a full member refuses it, and not an overwrite.  Under a lock it is counted
      and announced by the unlock. */
  function Send(s: Set, h: Handle, overwrite: bool): Set
    requires h in s.members
  {
    var m := s.members[h];
    if m.waiting >= m.length && !overwrite then s else
      var replaced := overwrite && m.waiting > 0;
      var n := m.(waiting := if replaced then m.waiting else m.waiting + 1);
      if m.lock != UNLOCKED then s.(members := s.members[h := n.(lock := Increment(m.lock, s.tasks))])
      else
        var t := s.(members := s.members[h := n]);
        if replaced then t else Notify(t, h)
  }

  /** A send by a task, which is announced at once, locked or not. */
  function TaskSend(s: Set, h: Handle, overwrite: bool): Set
    requires h in s.members
  {
    var m := s.members[h];
    if m.waiting >= m.length && !overwrite then s else
      var replaced := overwrite && m.waiting > 0;
      var t := s.(members := s.members[h := m.(waiting := if replaced then m.waiting else m.waiting + 1)]);
      if replaced then t else Notify(t, h)
  }

  function LockMember(s: Set, h: Handle): Set
    requires h in s.members
  {
    var m := s.members[h];
    if m.lock == UNLOCKED then s.(members := s.members[h := m.(lock := LOCKED_UNMODIFIED)]) else s
  }

  function UnlockMember(s: Set, h: Handle): Set
    requires h in s.members
  {
    var m := s.members[h];
    NotifyTimes(s.(members := s.members[h := m.(lock := UNLOCKED)]), h, m.lock)
  }

  /** `queue_select_from_set`, not blocking: the oldest announcement. */
  function Select(s: Set): Set {
    if s.contents == [] then s else s.(contents := s.contents[1..], picked := s.picked + multiset{s.contents[0]})
  }

  /** The receive that follows a selection. */
  function Receive(s: Set, h: Handle): Set
    requires h in s.members
  {
    var m := s.members[h];
    if m.waiting == 0 then s else
      s.(members := s.members[h := m.(waiting := m.waiting - 1)], picked := s.picked - multiset{h})
  }

  function Add(s: Set, h: Handle, m: Member): Set {
    if h in s.members || m.waiting != 0 then s else s.(members := s.members[h := m])
  }

  function Remove(s: Set, h: Handle): Set
    requires h in s.members
  {
    if s.members[h].waiting != 0 then s else s.(members := s.members - {h})
  }

  // --------------------------------------------------------- the balance --

  function HeldBack(m: Member): nat { if m.lock > 0 then m.lock else 0 }

  /** What is on the set for a member, what its lock holds back and what has been picked and not yet
      received are together what waits on it. */
  ghost predicate BalancedAt(s: Set, h: Handle)
    requires h in s.members
  {
    multiset(s.contents)[h] + HeldBack(s.members[h]) + s.picked[h] == s.members[h].waiting
  }

  function Lengths(members: map<Handle, Member>, handles: seq<Handle>): nat {
    if handles == [] then 0 else
      Lengths(members, handles[1..]) + if handles[0] in members then members[handles[0]].length else 0
  }

  /** `handles` lists the members, and together they are no longer than the set. */
  ghost predicate Roll(members: map<Handle, Member>, handles: seq<Handle>, size: nat) {
    && Distinct(handles) && (forall h :: h in handles <==> h in members)
    && Lengths(members, handles) <= size
  }

  /** Nothing is announced or picked but members. */
  ghost predicate OnlyMembers(s: Set) {
    forall h :: multiset(s.contents)[h] + s.picked[h] > 0 ==> h in s.members
  }

  ghost predicate Conserved(s: Set, handles: seq<Handle>) {
    && Roll(s.members, handles, s.size) && OnlyMembers(s) && s.tasks <= 127
    && forall h :: h in s.members ==> BalancedAt(s, h) && MemberOk(s.members[h])
  }

  predicate MemberOk(m: Member) { 0 < m.length && m.waiting <= m.length && -1 <= m.lock <= 127 }

  function Counts(contents: multiset<Handle>, handles: seq<Handle>): nat {
    if handles == [] then 0 else contents[handles[0]] + Counts(contents, handles[1..])
  }

  lemma {:induction false} CountsAdd(contents: multiset<Handle>, handles: seq<Handle>, h: Handle)
    requires Distinct(handles)
    ensures Counts(contents + multiset{h}, handles) == Counts(contents, handles) + if h in handles then 1 else 0
  {
    if handles != [] {
      assert handles == [handles[0]] + handles[1..];
      assert forall k :: 1 <= k < |handles| ==> handles[k] != handles[0] && handles[1..][k - 1] == handles[k];
      CountsAdd(contents, handles[1..], h);
    }
  }

  lemma {:induction false} CountsAll(contents: seq<Handle>, handles: seq<Handle>)
    requires Distinct(handles) && forall h :: h in contents ==> h in handles
    ensures Counts(multiset(contents), handles) == |contents|
  {
    if contents == [] {
      NothingCounts(handles);
    } else {
      var n := |contents| - 1;
      assert contents == contents[..n] + [contents[n]];
      CountsAll(contents[..n], handles);
      CountsAdd(multiset(contents[..n]), handles, contents[n]);
      assert contents[n] in handles;
    }
  }

  lemma {:induction false} NothingCounts(handles: seq<Handle>)
    ensures Counts(multiset([]), handles) == 0
  {
    if handles != [] { NothingCounts(handles[1..]); }
  }

  lemma {:induction false} CountsBelow(contents: multiset<Handle>, members: map<Handle, Member>,
      handles: seq<Handle>, spare: Handle)
    requires Distinct(handles) && forall h :: h in handles ==> h in members && contents[h] <= members[h].length
    ensures Counts(contents, handles) <= Lengths(members, handles)
    ensures spare in handles && contents[spare] < members[spare].length ==>
      Counts(contents, handles) < Lengths(members, handles)
  {
    if handles != [] {
      assert handles == [handles[0]] + handles[1..];
      assert handles[0] in handles;
      CountsBelow(contents, members, handles[1..], spare);
    }
  }

  /** A set as long as its members together has room for every announcement still to come. */
  lemma RoomForOneMore(s: Set, handles: seq<Handle>, h: Handle)
    requires Roll(s.members, handles, s.size) && OnlyMembers(s)
    requires forall g :: g in s.members ==> multiset(s.contents)[g] <= s.members[g].length
    requires h in s.members && multiset(s.contents)[h] < s.members[h].length
    ensures |s.contents| < s.size && Notify(s, h).contents == s.contents + [h]
  {
    forall g | g in s.contents ensures g in handles {
      assert multiset(s.contents)[g] > 0;
    }
    CountsAll(s.contents, handles);
    CountsBelow(multiset(s.contents), s.members, handles, h);
  }

  /** Swapping one member for another of its length leaves the sum as it was. */
  lemma {:induction false} SameLengths(members: map<Handle, Member>, handles: seq<Handle>, h: Handle, m: Member)
    requires h in members ==> m.length == members[h].length
    requires h in members
    ensures Lengths(members[h := m], handles) == Lengths(members, handles)
  {
    if handles != [] { SameLengths(members, handles[1..], h, m); }
  }

  // ------------------------------------------------------- what is kept --

  lemma SameRoll(members: map<Handle, Member>, handles: seq<Handle>, size: nat, h: Handle, m: Member)
    requires Roll(members, handles, size) && h in members && m.length == members[h].length
    ensures Roll(members[h := m], handles, size)
  {
    SameLengths(members, handles, h, m);
  }

  /** Only one member, and what there is of it, has changed. */
  lemma Rewritten(s: Set, t: Set, handles: seq<Handle>, h: Handle, m: Member)
    requires Conserved(s, handles) && h in s.members && MemberOk(m) && m.length == s.members[h].length
    requires t.members == s.members[h := m] && t.size == s.size && t.tasks == s.tasks
    requires forall g :: g != h ==> multiset(t.contents)[g] == multiset(s.contents)[g] && t.picked[g] == s.picked[g]
    ensures Conserved(t, handles) <==> BalancedAt(t, h)
  {
    hide Roll;
    SameRoll(s.members, handles, s.size, h, m);
    forall g | g != h && g in t.members ensures BalancedAt(t, g) && MemberOk(t.members[g]) {
      assert BalancedAt(s, g);
    }
  }

  /** A send under the lock keeps the balance exactly when it is counted as what it is: one more item
      while the count is below its cap.  An overwrite of an item that is there is counted too, though
      nothing arrived; at the cap an arrival is not. */
  lemma SendLockedExact(s: Set, handles: seq<Handle>, h: Handle, overwrite: bool)
    requires Conserved(s, handles) && h in s.members && s.members[h].lock != UNLOCKED
    ensures Conserved(Send(s, h, overwrite), handles) <==> SendCounts(s, h, overwrite)
  {
    var m := s.members[h];
    assert BalancedAt(s, h) && MemberOk(m);
    if !(m.waiting >= m.length && !overwrite) {
      var n := Send(s, h, overwrite).members[h];
      assert HeldBack(n) == HeldBack(m) + if m.lock < s.tasks then 1 else 0;
      Rewritten(s, Send(s, h, overwrite), handles, h, n);
    }
  }

  predicate SendCounts(s: Set, h: Handle, overwrite: bool)
    requires h in s.members
  {
    var m := s.members[h];
    if m.waiting >= m.length && !overwrite then true
    else if overwrite && m.waiting > 0 then m.lock >= s.tasks
    else m.lock < s.tasks
  }

  /** A locked overwrite of the one item there is: the unlock announces it a second time. */
  lemma OverwriteIsAnnouncedTwice()
    ensures var s := Set(map[1 := Member(1, 1, 0)], [1], 2, 3, multiset{});
      var t := UnlockMember(Send(s, 1, true), 1);
      && Conserved(s, [1]) && !Conserved(Send(s, 1, true), [1])
      && t.contents == [1, 1] && t.members == map[1 := Member(1, 1, UNLOCKED)]
  {
    var s := Set(map[1 := Member(1, 1, 0)], [1], 2, 3, multiset{});
    assert Roll(s.members, [1], 2) by { assert Lengths(s.members, []) == 0; }
    assert forall h :: multiset(s.contents)[h] + s.picked[h] > 0 ==> h == 1;
    assert Conserved(s, [1]);
    SendLockedExact(s, [1], 1, true);
    var u := Send(s, 1, true);
    assert u.members[1] == Member(1, 1, 1) && u.contents == [1];
    assert NotifyTimes(u.(members := u.members[1 := Member(1, 1, UNLOCKED)]), 1, 0).contents == [1];
  }

  function AtTheCap(): Set { Set(map[1 := Member(1, 2, 1)], [], 2, 1, multiset{}) }

  lemma AtTheCapIsConserved()
    ensures Conserved(AtTheCap(), [1])
  {
    var s := AtTheCap();
    assert Roll(s.members, [1], 2) by { assert Lengths(s.members, []) == 0; }
    assert forall h :: multiset(s.contents)[h] + s.picked[h] == 0;
  }

  /** A send at the cap, which is one task here: the unlock announces one of two items. */
  lemma SendAtTheCapIsLost()
    ensures var s, t := AtTheCap(), UnlockMember(Send(AtTheCap(), 1, false), 1);
      && Conserved(s, [1]) && !Conserved(Send(s, 1, false), [1])
      && t.contents == [1] && t.members == map[1 := Member(2, 2, UNLOCKED)]
  {
    hide Conserved, NotifyTimes;
    var s := AtTheCap();
    AtTheCapIsConserved();
    SendLockedExact(s, [1], 1, false);
    var u := Send(s, 1, false);
    assert u == s.(members := map[1 := Member(2, 2, 1)]);
    assert u.members[1 := u.members[1].(lock := UNLOCKED)] == map[1 := Member(2, 2, UNLOCKED)];
    OneNotice(u.(members := map[1 := Member(2, 2, UNLOCKED)]));
  }

  lemma OneNotice(u: Set)
    requires u.contents == [] && u.size == 2
    ensures NotifyTimes(u, 1, 1) == u.(contents := [1])
  {
    assert NotifyTimes(u, 1, 0) == u;
  }

  lemma LockKeeps(s: Set, handles: seq<Handle>, h: Handle)
    requires Conserved(s, handles) && h in s.members
    ensures Conserved(LockMember(s, h), handles)
  {
    assert BalancedAt(s, h) && MemberOk(s.members[h]);
    if s.members[h].lock == UNLOCKED {
      Rewritten(s, LockMember(s, h), handles, h, s.members[h].(lock := LOCKED_UNMODIFIED));
    }
  }

  /** With n announcements for one member still to come. */
  ghost predicate Owing(s: Set, handles: seq<Handle>, h: Handle, n: int) {
    && Roll(s.members, handles, s.size) && OnlyMembers(s) && s.tasks <= 127 && h in s.members
    && (forall g :: g in s.members ==> MemberOk(s.members[g]) && (g != h ==> BalancedAt(s, g)))
    && n >= 0 && multiset(s.contents)[h] + HeldBack(s.members[h]) + n + s.picked[h] == s.members[h].waiting
  }

  lemma NotifyPaysOne(t: Set, handles: seq<Handle>, h: Handle, n: int)
    requires Owing(t, handles, h, n) && 0 < n
    ensures Owing(Notify(t, h), handles, h, n - 1)
    ensures Notify(t, h).members == t.members && Notify(t, h).picked == t.picked
  {
    hide Roll;
    forall g | g in t.members ensures multiset(t.contents)[g] <= t.members[g].length {
      assert MemberOk(t.members[g]) && (g != h ==> BalancedAt(t, g));
    }
    assert MemberOk(t.members[h]);
    RoomForOneMore(t, handles, h);
    var u := Notify(t, h);
    assert multiset(u.contents) == multiset(t.contents) + multiset{h};
    forall g | g in u.members && g != h ensures BalancedAt(u, g) {
      assert BalancedAt(t, g);
    }
  }

  lemma {:induction false} NotifyPays(s: Set, handles: seq<Handle>, h: Handle, n: int, k: int)
    requires Owing(s, handles, h, n) && 0 <= k <= n
    ensures Owing(NotifyTimes(s, h, k), handles, h, n - k)
    ensures NotifyTimes(s, h, k).members == s.members && NotifyTimes(s, h, k).picked == s.picked
  {
    hide Owing, Notify;
    if k > 0 {
      NotifyPays(s, handles, h, n, k - 1);
      NotifyPaysOne(NotifyTimes(s, h, k - 1), handles, h, n - k + 1);
    }
  }

  lemma NothingOwed(s: Set, handles: seq<Handle>, h: Handle)
    requires Owing(s, handles, h, 0)
    ensures Conserved(s, handles)
  {
    hide Roll;
    assert BalancedAt(s, h);
  }

  /** An arrival owes one announcement. */
  lemma ArrivalOwes(s: Set, handles: seq<Handle>, h: Handle, m: Member, n: int)
    requires Conserved(s, handles) && h in s.members && n >= 0
    requires MemberOk(m) && m.length == s.members[h].length
    requires m.waiting == s.members[h].waiting + n + HeldBack(m) - HeldBack(s.members[h])
    ensures Owing(s.(members := s.members[h := m]), handles, h, n)
  {
    SameRoll(s.members, handles, s.size, h, m);
    hide Roll;
    var t := s.(members := s.members[h := m]);
    assert BalancedAt(s, h);
    forall g | g in t.members && g != h ensures BalancedAt(t, g) && MemberOk(t.members[g]) {
      assert BalancedAt(s, g);
    }
  }

  /** A task's send is announced once and for certain, whether or not the member is locked. */
  lemma TaskSendKeeps(s: Set, handles: seq<Handle>, h: Handle, overwrite: bool)
    requires Conserved(s, handles) && h in s.members
    ensures Conserved(TaskSend(s, h, overwrite), handles)
  {
    hide Roll, OnlyMembers, BalancedAt;
    var m := s.members[h];
    assert MemberOk(m);
    if !(m.waiting >= m.length && !overwrite) {
      var n := if overwrite && m.waiting > 0 then 0 else 1;
      var l := m.(waiting := m.waiting + n);
      ArrivalOwes(s, handles, h, l, n);
      var t := s.(members := s.members[h := l]);
      hide Owing, Conserved, Notify;
      if n == 1 {
        NotifyPaysOne(t, handles, h, 1);
        NothingOwed(Notify(t, h), handles, h);
      } else {
        NothingOwed(t, handles, h);
      }
    }
  }

  /** And so is an interrupt's where the member is not locked. */
  lemma SendUnlocked(s: Set, handles: seq<Handle>, h: Handle, overwrite: bool)
    requires Conserved(s, handles) && h in s.members && s.members[h].lock == UNLOCKED
    ensures Conserved(Send(s, h, overwrite), handles)
  {
    hide Conserved;
    TaskSendKeeps(s, handles, h, overwrite);
    assert Send(s, h, overwrite) == TaskSend(s, h, overwrite);
  }

  /** An unlock announces everything its lock held back, and finds room for all of it. */
  lemma UnlockKeeps(s: Set, handles: seq<Handle>, h: Handle)
    requires Conserved(s, handles) && h in s.members
    ensures var t, n := UnlockMember(s, h), HeldBack(s.members[h]);
      && Conserved(t, handles) && t.members == s.members[h := s.members[h].(lock := UNLOCKED)]
      && multiset(t.contents)[h] == multiset(s.contents)[h] + n
  {
    var m, n := s.members[h], HeldBack(s.members[h]);
    assert MemberOk(m);
    ArrivalOwes(s, handles, h, m.(lock := UNLOCKED), n);
    var t := s.(members := s.members[h := m.(lock := UNLOCKED)]);
    NotifyPays(t, handles, h, n, n);
    NothingOwed(NotifyTimes(t, h, n), handles, h);
    assert NotifyTimes(t, h, m.lock) == NotifyTimes(t, h, n);
    hide NotifyTimes;
    assert BalancedAt(s, h) && BalancedAt(NotifyTimes(t, h, n), h);
  }

  lemma SelectKeeps(s: Set, handles: seq<Handle>)
    requires Conserved(s, handles)
    ensures Conserved(Select(s), handles)
    ensures s.contents != [] ==> s.contents[0] in s.members && s.contents[0] in Select(s).picked
  {
    if s.contents != [] {
      var h, t := s.contents[0], Select(s);
      assert s.contents == [h] + s.contents[1..];
      assert multiset(s.contents)[h] > 0;
      assert BalancedAt(s, h) && MemberOk(s.members[h]);
      assert s.members == s.members[h := s.members[h]];
      Rewritten(s, t, handles, h, s.members[h]);
    }
  }

  /** Whoever selected a member finds an item on it. */
  lemma SelectionFindsItem(s: Set, handles: seq<Handle>, h: Handle)
    requires Conserved(s, handles) && h in s.picked
    ensures h in s.members && s.members[h].waiting > 0
    ensures Conserved(Receive(s, h), handles)
  {
    assert s.picked[h] > 0;
    assert BalancedAt(s, h) && MemberOk(s.members[h]);
    Rewritten(s, Receive(s, h), handles, h, Receive(s, h).members[h]);
  }

  /** A member that may be removed has left nothing behind, on the set or in anybody's hands. */
  lemma RemovedLeavesNothing(s: Set, handles: seq<Handle>, h: Handle)
    requires Conserved(s, handles) && h in s.members && s.members[h].waiting == 0
    ensures h !in s.contents && h !in s.picked && HeldBack(s.members[h]) == 0
    ensures forall g :: g in Remove(s, h).members ==> g != h && BalancedAt(Remove(s, h), g)
  {
    assert BalancedAt(s, h);
    assert multiset(s.contents)[h] == 0;
    forall g | g in Remove(s, h).members ensures BalancedAt(Remove(s, h), g) {
      assert BalancedAt(s, g);
    }
  }

  /** A queue may join with nothing on it; the balance takes it in exactly when its lock holds nothing
      back either. */
  lemma AddedBalances(s: Set, handles: seq<Handle>, h: Handle, m: Member)
    requires Conserved(s, handles) && h !in s.members && MemberOk(m) && m.waiting == 0
    requires Lengths(s.members, handles) + m.length <= s.size
    ensures Conserved(Add(s, h, m), [h] + handles) <==> m.lock <= 0
  {
    var t := Add(s, h, m);
    RollGrows(s.members, handles, s.size, h, m);
    hide Roll;
    assert multiset(s.contents)[h] + s.picked[h] == 0;
    assert BalancedAt(t, h) <==> m.lock <= 0;
    forall g | g in s.members ensures BalancedAt(t, g) && MemberOk(t.members[g]) {
      assert BalancedAt(s, g);
    }
  }

  lemma RollGrows(members: map<Handle, Member>, handles: seq<Handle>, size: nat, h: Handle, m: Member)
    requires Roll(members, handles, size) && h !in members && Lengths(members, handles) + m.length <= size
    ensures Roll(members[h := m], [h] + handles, size)
  {
    assert forall k :: 0 <= k < |handles| ==> handles[k] in handles;
    SkipLengths(members, handles, h, m);
    assert ([h] + handles)[1..] == handles;
  }

  lemma {:induction false} SkipLengths(members: map<Handle, Member>, handles: seq<Handle>, h: Handle, m: Member)
    requires h !in members
    requires forall k :: 0 <= k < |handles| ==> handles[k] != h
    ensures Lengths(members[h := m], handles) == Lengths(members, handles)
  {
    if handles != [] { SkipLengths(members, handles[1..], h, m); }
  }

  // ------------------------------------------------------ over any history --

  datatype Event = Sent(h: Handle, overwrite: bool) | TaskSent(h: Handle, overwrite: bool) | Locked(h: Handle) | Unlocked(h: Handle) | Selected | Received(h: Handle)

  /** Members are read only after a selection, and an interrupt's send under a lock is counted. */
  predicate Can(s: Set, e: Event) {
    match e
    case Sent(h, overwrite) => h in s.members && (s.members[h].lock == UNLOCKED || SendCounts(s, h, overwrite))
    case TaskSent(h, _) => h in s.members
    case Locked(h) => h in s.members
    case Unlocked(h) => h in s.members
    case Selected => true
    case Received(h) => h in s.picked && h in s.members
  }

  function Step(s: Set, e: Event): Set
    requires Can(s, e)
  {
    match e
    case Sent(h, overwrite) => Send(s, h, overwrite)
    case TaskSent(h, overwrite) => TaskSend(s, h, overwrite)
    case Locked(h) => LockMember(s, h)
    case Unlocked(h) => UnlockMember(s, h)
    case Selected => Select(s)
    case Received(h) => Receive(s, h)
  }

  predicate CanRun(s: Set, events: seq<Event>)
    decreases |events|
  {
    events == [] || (Can(s, events[0]) && CanRun(Step(s, events[0]), events[1..]))
  }

  function Run(s: Set, events: seq<Event>): Set
    requires CanRun(s, events)
    decreases |events|
  {
    if events == [] then s else Run(Step(s, events[0]), events[1..])
  }

  /** No announcement is ever lost or made up: after any history the set, the locks and the selections
      in hand together account for every item waiting on every member. */
  lemma {:induction false} AnnouncementsAreConserved(s: Set, handles: seq<Handle>, events: seq<Event>)
    requires Conserved(s, handles) && CanRun(s, events)
    ensures Conserved(Run(s, events), handles)
    decreases |events|
  {
    hide Conserved, Send, TaskSend, LockMember, UnlockMember, Select, Receive;
    if events != [] {
      match events[0]
      case Sent(h, overwrite) => SendKeeps(s, handles, h, overwrite);
      case TaskSent(h, overwrite) => TaskSendKeeps(s, handles, h, overwrite);
      case Locked(h) => LockKeeps(s, handles, h);
      case Unlocked(h) => UnlockKeeps(s, handles, h);
      case Selected => SelectKeeps(s, handles);
      case Received(h) => SelectionFindsItem(s, handles, h);
    }
    if events != [] { AnnouncementsAreConserved(Step(s, events[0]), handles, events[1..]); }
  }

  lemma SendKeeps(s: Set, handles: seq<Handle>, h: Handle, overwrite: bool)
    requires Conserved(s, handles) && Can(s, Event.Sent(h, overwrite))
    ensures Conserved(Send(s, h, overwrite), handles)
  {
    hide Conserved, Send, SendCounts;
    if s.members[h].lock == UNLOCKED {
      SendUnlocked(s, handles, h, overwrite);
    } else {
      SendLockedExact(s, handles, h, overwrite);
    }
  }

  // -------------------------------------------------------------- the set --

  class QueueSet {
    /** This set's own handle, and the handles of all the queues that are sets. */
    const handle: Handle
    var sets: set<Handle>
    var members: map<Handle, Member>
    /** The queues that are in another set: in which, and their state. */
    var elsewhere: map<Handle, (Handle, Member)>
    var contents: seq<Handle>
    const size: nat
    var tasks: nat
    ghost var picked: multiset<Handle>

    ghost function View(): Set
      reads this
    {
      Set(members, contents, size, tasks, picked)
    }

    /** A queue is in one set at most. */
    ghost predicate Valid()
      reads this
    {
      && handle in sets && members.Keys !! elsewhere.Keys
      && forall h :: h in elsewhere ==> elsewhere[h].0 in sets && elsewhere[h].0 != handle
    }

    constructor (handle: Handle, size: nat, tasks: nat)
      ensures View() == Set(map[], [], size, tasks, multiset{}) && Valid()
      ensures this.handle == handle && sets == {handle} && elsewhere == map[]
    {
      this.handle, this.size, this.tasks := handle, size, tasks;
      sets, members, elsewhere, contents, picked := {handle}, map[], map[], [], multiset{};
    }

    /** `queue_create_set`, of another. */
    method QueueCreateSet(other: Handle)
      requires Valid()
      modifies this`sets
      ensures Valid() && sets == old(sets) + {other}
    {
      sets := sets + {other};
    }

    /** `queue_add_to_set`: refused for a target that is no set, and for a queue that is in a set, this one
        or another, or has items. */
    method QueueAddToSet(h: Handle, m: Member, target: Handle) returns (ok: bool)
      requires Valid()
      modifies this`members, this`elsewhere
      ensures Valid()
      ensures ok == (target in sets && h !in old(members) && h !in old(elsewhere) && m.waiting == 0)
      ensures View() == if ok && target == handle then Add(old(View()), h, m) else old(View())
      ensures members == if ok && target == handle then old(members)[h := m] else old(members)
      ensures elsewhere == if ok && target != handle then old(elsewhere)[h := (target, m)] else old(elsewhere)
    {
      if target !in sets {
        return false;
      }
      if h in members || h in elsewhere || m.waiting != 0 {
        return false;
      }
      if target == handle {
        members := members[h := m];
      } else {
        elsewhere := elsewhere[h := (target, m)];
      }
      ok := true;
    }

    /** `queue_remove_from_set`: refused unless the queue is in that very set and empty. */
    method QueueRemoveFromSet(h: Handle, target: Handle) returns (ok: bool)
      requires Valid()
      modifies this`members, this`elsewhere
      ensures Valid()
      ensures ok ==
        if target == handle then h in old(members) && old(members)[h].waiting == 0
        else h in old(elsewhere) && old(elsewhere)[h].0 == target && old(elsewhere)[h].1.waiting == 0
      ensures View() == if ok && target == handle then Remove(old(View()), h) else old(View())
      ensures members == if ok && target == handle then old(members) - {h} else old(members)
      ensures elsewhere == if ok && target != handle then old(elsewhere) - {h} else old(elsewhere)
    {
      ok := false;
      if target == handle {
        if h in members && members[h].waiting == 0 {
          members := members - {h};
          ok := true;
        }
      } else if h in elsewhere && elsewhere[h].0 == target && elsewhere[h].1.waiting == 0 {
        elsewhere := elsewhere - {h};
        ok := true;
      }
    }

    /** `notify_queue_set_container`. */
    method NotifyQueueSetContainer(h: Handle)
      modifies this`contents
      ensures View() == Notify(old(View()), h)
      ensures contents == if |old(contents)| < size then old(contents) + [h] else old(contents)
    {
      if |contents| >= size {
        return;
      }
      contents := contents + [h];
    }

    /** `queue_send_generic`, of a member with room or to overwrite: announced at once. */
    method SendToMember(h: Handle, overwrite: bool) returns (ok: bool)
      requires h in members
      modifies this`members, this`contents
      ensures View() == TaskSend(old(View()), h, overwrite)
      ensures ok == (old(members)[h].waiting < old(members)[h].length || overwrite)
      ensures var was, arrives := old(members)[h], ok && !(overwrite && old(members)[h].waiting > 0);
        && members == (if arrives then old(members)[h := was.(waiting := was.waiting + 1)] else old(members))
        && contents == (if arrives && |old(contents)| < size then old(contents) + [h] else old(contents))
    {
      var m := members[h];
      if m.waiting >= m.length && !overwrite {
        return false;
      }
      ok := true;
      var overwrote := overwrite && m.waiting > 0;
      members := members[h := m.(waiting := if overwrote then m.waiting else m.waiting + 1)];
      if !overwrote {
        NotifyQueueSetContainer(h);
      }
    }

    /** `send_from_isr_locked`, of a member: announced at once, or counted for the unlock. */
    method SendToMemberFromIsr(h: Handle, overwrite: bool) returns (ok: bool)
      requires h in members
      modifies this`members, this`contents
      ensures View() == Send(old(View()), h, overwrite)
      ensures ok == (old(members)[h].waiting < old(members)[h].length || overwrite)
      ensures var was, arrives := old(members)[h], ok && !(overwrite && old(members)[h].waiting > 0);
        && h in members && members == old(members)[h := members[h]] && members[h].length == was.length
        && members[h].waiting == (if arrives then was.waiting + 1 else was.waiting)
        && (!ok || was.lock == -1 ==> members[h].lock == was.lock)
        && (ok && -1 < was.lock < 127 ==> members[h].lock == if was.lock < tasks then was.lock + 1 else was.lock)
        && contents == (if arrives && was.lock == -1 && |old(contents)| < size then old(contents) + [h] else old(contents))
    {
      var m := members[h];
      if m.waiting >= m.length && !overwrite {
        return false;
      }
      ok := true;
      var previouslyWaiting := m.waiting;
      if !(overwrite && m.waiting > 0) {
        m := m.(waiting := m.waiting + 1);
      }
      if m.lock != UNLOCKED {
        members := members[h := m.(lock := Increment(m.lock, tasks))];
        return;
      }
      members := members[h := m];
      if !(overwrite && previouslyWaiting > 0) {
        NotifyQueueSetContainer(h);
      }
    }

    method LockQueue(h: Handle)
      requires h in members
      modifies this`members
      ensures View() == LockMember(old(View()), h)
      ensures h in members && members == old(members)[h := members[h]]
      ensures members[h] == if old(members)[h].lock == -1 then old(members)[h].(lock := 0) else old(members)[h]
    {
      if members[h].lock == UNLOCKED {
        members := members[h := members[h].(lock := LOCKED_UNMODIFIED)];
      }
    }

    /** `unlock_queue` with its drain: one announcement for each send that was counted. */
    method UnlockQueue(h: Handle)
      requires h in members
      modifies this`members, this`contents
      ensures View() == UnlockMember(old(View()), h)
      ensures members == old(members)[h := old(members)[h].(lock := -1)]
      ensures var held, room := old(members)[h].lock, size - |old(contents)|;
        && |old(contents)| <= |contents| && contents[..|old(contents)|] == old(contents)
        && (forall i :: |old(contents)| <= i < |contents| ==> contents[i] == h)
        && |contents| - |old(contents)| == if held <= 0 || room <= 0 then 0 else if held < room then held else room
    {
      var lock := members[h].lock;
      members := members[h := members[h].(lock := UNLOCKED)];
      ghost var s, n := View(), 0;
      while lock > LOCKED_UNMODIFIED
        invariant View() == NotifyTimes(s, h, n)
        invariant members == old(members)[h := old(members)[h].(lock := UNLOCKED)]
        invariant |old(contents)| <= |contents| && contents[..|old(contents)|] == old(contents)
        invariant forall i :: |old(contents)| <= i < |contents| ==> contents[i] == h
        invariant var room := size - |old(contents)|;
          |contents| - |old(contents)| == if room <= 0 then 0 else if n < room then n else room
        invariant (n == 0 && lock == old(members)[h].lock) || (lock >= 0 && n + lock == old(members)[h].lock)
        decreases lock
      {
        NotifyQueueSetContainer(h);
        lock := lock - 1;
        n := n + 1;
      }
    }

    /** `queue_select_from_set` that does not block. */
    method QueueSelectFromSet() returns (found: bool, h: Handle)
      modifies this`contents, this`picked
      ensures View() == Select(old(View()))
      ensures !found ==> contents == old(contents) && picked == old(picked)
      ensures found ==> old(contents) != [] && contents == old(contents)[1..] && picked == old(picked) + multiset{h}
      ensures found == (old(contents) != []) && (found ==> h == old(contents)[0])
    {
      if contents == [] {
        return false, 0;
      }
      found, h := true, contents[0];
      picked := picked + multiset{h};
      contents := contents[1..];
    }

    method ReceiveFromMember(h: Handle) returns (ok: bool)
      requires h in members
      modifies this`members, this`picked
      ensures View() == Receive(old(View()), h) && ok == (old(members)[h].waiting > 0)
      ensures !ok ==> members == old(members) && picked == old(picked)
      ensures ok ==>
        && members == old(members)[h := old(members)[h].(waiting := old(members)[h].waiting - 1)]
        && picked == old(picked) - multiset{h}
    {
      var m := members[h];
      if m.waiting == 0 {
        return false;
      }
      members := members[h := m.(waiting := m.waiting - 1)];
      picked := picked - multiset{h};
      ok := true;
    }
  }
}
