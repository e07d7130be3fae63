/** `event_group_sync` as a rendezvous that can be held again and again. */
module Barriers {
  import opened Basics
  import opened EventGroups

  function BitsOf(list: seq<TaskId>, own: map<TaskId, Word>): Word {
    if list == [] then {} else BitsOf(list[..|list| - 1], own) + ValueOf(own, list[|list| - 1])
  }

  /** Each participant has a bit (or several) that nobody else sets, and all wait for all of them. */
  ghost predicate Party(parts: seq<TaskId>, own: map<TaskId, Word>, mask: Word) {
    && parts != [] && mask == BitsOf(parts, own) && IsBits(mask)
    && (forall p :: p in parts ==> ValueOf(own, p) != {})
    && (forall p, q :: p in parts && q in parts && p != q ==> ValueOf(own, p) !! ValueOf(own, q))
  }

  /** Between calls: the waiters are participants, each with the sync condition in its item, and the
      mask bits that are set are theirs. */
  ghost predicate Gathering(g: Group, parts: seq<TaskId>, own: map<TaskId, Word>, mask: Word) {
    && Settled(g) && g.bits * mask == BitsOf(g.waiting, own)
    && forall t :: t in g.waiting ==> t in parts && ConditionOf(g.values, t) == Condition(mask, true, true)
  }

  lemma {:induction false} BitIn(list: seq<TaskId>, own: map<TaskId, Word>, bit: nat)
    ensures bit in BitsOf(list, own) <==> exists t :: t in list && bit in ValueOf(own, t)
  {
    if list != [] {
      var n := |list| - 1;
      BitIn(list[..n], own, bit);
      assert list == list[..n] + [list[n]];
    }
  }

  /** The bits of those who have come cover the mask exactly when everybody has come. */
  lemma CoveredWhenAllCame(came: seq<TaskId>, parts: seq<TaskId>, own: map<TaskId, Word>, mask: Word)
    requires Party(parts, own, mask) && forall t :: t in came ==> t in parts
    ensures BitsOf(came, own) <= mask
    ensures mask <= BitsOf(came, own) <==> forall p :: p in parts ==> p in came
  {
    forall bit | bit in BitsOf(came, own) ensures bit in mask {
      BitIn(came, own, bit);
      BitIn(parts, own, bit);
    }
    if forall p :: p in parts ==> p in came {
      forall bit | bit in mask ensures bit in BitsOf(came, own) {
        BitIn(came, own, bit);
        BitIn(parts, own, bit);
      }
    } else {
      var p :| p in parts && p !in came;
      var bit :| bit in ValueOf(own, p);
      BitIn(came, own, bit);
      BitIn(parts, own, bit);
    }
  }

  lemma {:induction false} AllAlike(list: seq<TaskId>, values: map<TaskId, Word>, current: Word, mask: Word)
    requires forall t :: t in list ==> ConditionOf(values, t) == Condition(mask, true, true)
    ensures SweepOf(list, values, current) ==
      if mask <= current then Sweep(list, [], if list == [] then {} else mask) else Sweep([], list, {})
  {
    if list != [] {
      var n := |list| - 1;
      assert list[n] in list && list == list[..n] + [list[n]];
      AllAlike(list[..n], values, current, mask);
      assert {} + mask == mask && mask + mask == mask;
    }
  }

  /** What a sync by the last participant does ... */
  lemma LastArrives(g: Group, parts: seq<TaskId>, own: map<TaskId, Word>, mask: Word, t: TaskId, ticks: nat)
    requires Party(parts, own, mask) && Gathering(g, parts, own, mask) && t in parts && t !in g.waiting
    requires mask <= g.bits + ValueOf(own, t)
    ensures var (h, out) := Sync(g, t, ValueOf(own, t), mask, ticks);
      && Gathering(h, parts, own, mask) && h.bits - mask == g.bits - mask
      && out.Done? && mask <= out.bits
      && h.waiting == [] && h.ready == g.ready + g.waiting
      && forall p :: p in g.waiting ==> ValueOf(h.values, p) == Answer(out.bits)
  {
    OwnBits(parts, own, mask, t);
    SyncSettles(g, t, ValueOf(own, t), mask, ticks);
    AllAlike(g.waiting, g.values, g.bits + ValueOf(own, t), mask);
    forall p | p in g.waiting {
      AnsweredAt(g.values, g.waiting, Answer(g.bits + ValueOf(own, t)), p);
    }
  }

  /** ... and what one by anybody before that does. */
  lemma OneMoreArrives(g: Group, parts: seq<TaskId>, own: map<TaskId, Word>, mask: Word, t: TaskId, ticks: nat)
    requires Party(parts, own, mask) && Gathering(g, parts, own, mask) && t in parts && t !in g.waiting
    requires !(mask <= g.bits + ValueOf(own, t)) && ticks > 0
    ensures var (h, out) := Sync(g, t, ValueOf(own, t), mask, ticks);
      && Gathering(h, parts, own, mask) && h.bits - mask == g.bits - mask
      && out == Blocked && h.waiting == g.waiting + [t] && h.ready == g.ready
  {
    var set_ := ValueOf(own, t);
    hide Pack, Unpack, IsBits, Met, BitsOf, SweepOf;
    OwnBits(parts, own, mask, t);
    SyncSettles(g, t, set_, mask, ticks);
    AllAlike(g.waiting, g.values, g.bits + set_, mask);
    OneMore(g.waiting, own, t);
    Joined(g.bits, set_, mask);
    assert g.bits + set_ - {} == g.bits + set_;
  }

  lemma OwnBits(parts: seq<TaskId>, own: map<TaskId, Word>, mask: Word, t: TaskId)
    requires Party(parts, own, mask) && t in parts
    ensures ValueOf(own, t) <= mask && IsBits(ValueOf(own, t))
  {
    forall bit | bit in ValueOf(own, t) ensures bit in mask {
      BitIn(parts, own, bit);
    }
  }

  /** One call.  Before the last participant has come, the caller joins the waiters and nothing else
      happens.  The last one's call readies everybody who waited, in the order they came, each with a
      value that holds the whole mask, answers its own caller such a value, and leaves of the bits
      exactly those outside the mask. */
  lemma SyncStep(g: Group, parts: seq<TaskId>, own: map<TaskId, Word>, mask: Word, t: TaskId, ticks: nat)
    requires Party(parts, own, mask) && Gathering(g, parts, own, mask)
    requires t in parts && t !in g.waiting && ticks > 0
    ensures var (h, out) := Sync(g, t, ValueOf(own, t), mask, ticks);
      && Gathering(h, parts, own, mask)
      && h.bits - mask == g.bits - mask
      && if exists p :: p in parts && p != t && p !in g.waiting then
           out == Blocked && h.waiting == g.waiting + [t] && h.ready == g.ready
         else
           && out.Done? && mask <= out.bits
           && h.waiting == [] && h.ready == g.ready + g.waiting
           && forall p :: p in g.waiting ==> ValueOf(h.values, p) == Answer(out.bits)
  {
    hide Sync, Party, Gathering;
    Arrivals(g, parts, own, mask, t);
    if mask <= g.bits + ValueOf(own, t) {
      LastArrives(g, parts, own, mask, t, ticks);
    } else {
      OneMoreArrives(g, parts, own, mask, t, ticks);
    }
  }

  lemma OneMore(list: seq<TaskId>, own: map<TaskId, Word>, t: TaskId)
    ensures BitsOf(list + [t], own) == BitsOf(list, own) + ValueOf(own, t)
  {
    assert (list + [t])[..|list|] == list;
  }

  lemma Joined(bits: Word, x: Word, mask: Word)
    requires x <= mask
    ensures (bits + x) * mask == bits * mask + x && bits + x - mask == bits - mask
    ensures mask <= bits + x <==> mask <= bits * mask + x
  {
  }

  /** A sync call finds the mask covered exactly when everybody else is waiting. */
  lemma Arrivals(g: Group, parts: seq<TaskId>, own: map<TaskId, Word>, mask: Word, t: TaskId)
    requires Party(parts, own, mask) && Gathering(g, parts, own, mask) && t in parts
    ensures mask <= g.bits + ValueOf(own, t) <==> !exists p :: p in parts && p != t && p !in g.waiting
  {
    hide BitsOf, IsBits, Settled, ConditionOf;
    var came := g.waiting + [t];
    CoveredWhenAllCame(came, parts, own, mask);
    OwnBits(parts, own, mask, t);
    OneMore(g.waiting, own, t);
    Joined(g.bits, ValueOf(own, t), mask);
  }

  // ------------------------------------------------------ round after round --

  /** A history of calls, each by a participant; the second component is everybody a call has
      returned to, in order. */
  function Rounds(g: Group, own: map<TaskId, Word>, mask: Word, calls: seq<TaskId>): (Group, seq<TaskId>) {
    if calls == [] then (g, []) else
      var n := |calls| - 1;
      var (h, returned) := Rounds(g, own, mask, calls[..n]);
      var (i, out) := Sync(h, calls[n], ValueOf(own, calls[n]), mask, 1);
      (i, returned + i.ready[if |h.ready| <= |i.ready| then |h.ready| else 0..] + if out.Done? then [calls[n]] else [])
  }

  /** A task that waits does not call. */
  ghost predicate Legal(g: Group, own: map<TaskId, Word>, mask: Word, parts: seq<TaskId>, calls: seq<TaskId>) {
    forall k :: 0 <= k < |calls| ==> calls[k] in parts && calls[k] !in Rounds(g, own, mask, calls[..k]).0.waiting
  }

  /** Every participant's calls have returned once a round, and a waiter has called once more. */
  ghost predicate Balanced(parts: seq<TaskId>, waiting: seq<TaskId>, calls: seq<TaskId>, returned: seq<TaskId>, rounds: nat) {
    forall p :: p in parts ==>
      && multiset(returned)[p] == rounds
      && multiset(calls)[p] == rounds + if p in waiting then 1 else 0
  }

  /** However many rounds: some number of them is complete; every participant's calls have returned
      exactly so often, and the waiters, and only they, have called once more.  Somebody is always
      still to come. */
  lemma {:induction false} BarrierHolds(g: Group, own: map<TaskId, Word>, mask: Word, parts: seq<TaskId>, calls: seq<TaskId>)
    returns (rounds: nat)
    requires Party(parts, own, mask) && Gathering(g, parts, own, mask) && g.waiting == []
    requires Legal(g, own, mask, parts, calls)
    ensures var (h, returned) := Rounds(g, own, mask, calls);
      && Gathering(h, parts, own, mask) && h.bits - mask == g.bits - mask
      && (exists p :: p in parts && p !in h.waiting)
      && Balanced(parts, h.waiting, calls, returned, rounds)
  {
    hide Sync, Gathering, Party, Legal, Distinct, Balanced;
    if calls == [] {
      rounds := 0;
      SomebodyIsMissing(g, parts, own, mask);
      assert Balanced(parts, [], [], [], 0) by { NoCallsYet(parts); }
    } else {
      var n := |calls| - 1;
      var t := calls[n];
      LegalSoFar(g, own, mask, parts, calls);
      var before := BarrierHolds(g, own, mask, parts, calls[..n]);
      var (h, returned) := Rounds(g, own, mask, calls[..n]);
      SomebodyIsMissing(h, parts, own, mask);
      SyncStep(h, parts, own, mask, t, 1);
      var (i, out) := Sync(h, t, ValueOf(own, t), mask, 1);
      SomebodyIsMissing(i, parts, own, mask);
      rounds := if out.Blocked? then before else before + 1;
      Counts(parts, h, i, out, t, calls, returned, before);
    }
  }

  lemma NoCallsYet(parts: seq<TaskId>)
    ensures Balanced(parts, [], [], [], 0)
  {
  }

  lemma LegalSoFar(g: Group, own: map<TaskId, Word>, mask: Word, parts: seq<TaskId>, calls: seq<TaskId>)
    requires Legal(g, own, mask, parts, calls) && calls != []
    ensures var n := |calls| - 1;
      && Legal(g, own, mask, parts, calls[..n])
      && calls[n] in parts && calls[n] !in Rounds(g, own, mask, calls[..n]).0.waiting
  {
    hide Rounds;
    var n := |calls| - 1;
    assert forall k :: 0 <= k < n ==> calls[..n][..k] == calls[..k] && calls[..n][k] == calls[k];
  }

  lemma SomebodyIsMissing(g: Group, parts: seq<TaskId>, own: map<TaskId, Word>, mask: Word)
    requires Party(parts, own, mask) && Gathering(g, parts, own, mask)
    ensures Distinct(g.waiting) && exists p :: p in parts && p !in g.waiting
  {
    CoveredWhenAllCame(g.waiting, parts, own, mask);
    var bit :| bit in ValueOf(own, parts[0]);
    BitIn(parts, own, bit);
    if g.waiting == [] {
      assert parts[0] in parts;
    } else {
      assert Waits(g, g.waiting[0]) && ConditionOf(g.values, g.waiting[0]) == Condition(mask, true, true);
    }
  }

  /** The books of a round: a blocked call is one not yet returned, and the last call of a round
      returns once to every participant. */
  lemma Counts(parts: seq<TaskId>, h: Group, i: Group, out: Outcome, t: TaskId,
      calls: seq<TaskId>, returned: seq<TaskId>, rounds: nat)
    requires Distinct(h.waiting) && t !in h.waiting
    requires calls != [] && calls[|calls| - 1] == t
    requires Balanced(parts, h.waiting, calls[..|calls| - 1], returned, rounds)
    requires out.Blocked? ==> i.waiting == h.waiting + [t] && i.ready == h.ready
    requires out.Done? ==> i.waiting == [] && i.ready == h.ready + h.waiting
    requires out.Done? ==> forall p :: p in parts && p != t ==> p in h.waiting
    ensures var back := returned + i.ready[|h.ready|..] + if out.Done? then [t] else [];
      var now := if out.Blocked? then rounds else rounds + 1;
      Balanced(parts, i.waiting, calls, back, now)
  {
    assert calls == calls[..|calls| - 1] + [t];
    assert i.ready[|h.ready|..] == if out.Done? then h.waiting else [];
    forall p { CountedOnce(h.waiting, p); }
  }
}
