/** The frame of a blocking call in kernel.rs: how the wrapping tick and the overflow count charge its
    block time, whatever number of retries it takes. */
module Waits {
  import opened Basics
  import opened Ticks

  /** A moment: its epoch, and what the tick says in it. */
  datatype Moment = Moment(epoch: nat, tick: nat)

  ghost function Time(m: Moment, width: nat): nat { EpochStart(m.epoch, width) + m.tick }

  predicate Before(a: Moment, b: Moment) { a.epoch < b.epoch || (a.epoch == b.epoch && a.tick <= b.tick) }

  /** `held` is what is left of the block time at the last check, made at `entering`. */
  datatype Frame = Frame(held: nat, entering: nat, overflows: nat)

  /** `check_for_timeout`: what is left of the block time, or none. */
  function Check(f: Frame, now: nat, overflows: nat, width: nat): (Frame, Option<nat>)
    requires now < width && f.entering < width
  {
    var elapsed := if now >= f.entering then now - f.entering else now + width - f.entering;
    if f.held == width - 1 then (f, Some(f.held))
    else if overflows != f.overflows && now >= f.entering then (f.(held := 0), None)
    else if elapsed < f.held then (Frame(f.held - elapsed, now, overflows), Some(f.held - elapsed))
    else (f.(held := 0), None)
  }

  /** The frame was last charged at this moment. */
  ghost predicate ChargedAt(f: Frame, m: Moment, width: nat) {
    m.tick < width && f.entering == m.tick && f.overflows == CountOf(m.epoch)
  }

  lemma {:induction false} CountsDiffer(epoch: nat)
    ensures CountOf(epoch) < OVERFLOWS_WRAP && CountOf(epoch + 1) != CountOf(epoch)
  {
    if epoch > 0 { CountsDiffer(epoch - 1); }
  }

  lemma {:induction false} EpochsApart(a: nat, b: nat, width: nat)
    requires a <= b
    ensures EpochStart(b, width) >= EpochStart(a, width)
    ensures a + 2 <= b ==> EpochStart(b, width) >= EpochStart(a, width) + width + width
  {
    if a < b {
      EpochsApart(a, b - 1, width);
      if a + 2 == b { assert EpochStart(b, width) == EpochStart(a + 1, width) + width; }
    }
  }

  /** A check tells the truth, and charges exactly the time that passed: if the clock wrapped at most
      once since the last one, the answer is "timed out" exactly when the time passed is no less than
      what was left. */
  lemma CheckIsExact(f: Frame, a: Moment, b: Moment, width: nat)
    requires ChargedAt(f, a, width) && b.tick < width && Before(a, b) && b.epoch <= a.epoch + 1
    requires f.held < width - 1
    ensures var (g, left) := Check(f, b.tick, CountOf(b.epoch), width);
      var elapsed := Time(b, width) - Time(a, width);
      && (left.None? <==> elapsed >= f.held)
      && (left.Some? ==> ChargedAt(g, b, width) && g.held == left.value == f.held - elapsed && left.value > 0)
  {
    CountsDiffer(a.epoch);
    if b.epoch > a.epoch { assert EpochStart(b.epoch, width) == EpochStart(a.epoch, width) + width; }
  }

  /** However long ago the last check was, the answer is wrong exactly when the clock has gone all the
      way round and neither sign of it shows: the tick is below where it was, or the overflow count is
      back where it was, and the rest of the time looks short enough. */
  lemma CheckErrsExactly(f: Frame, a: Moment, b: Moment, width: nat)
    requires ChargedAt(f, a, width) && b.tick < width && Before(a, b) && f.held < width - 1
    ensures var left := Check(f, b.tick, CountOf(b.epoch), width).1;
      var elapsed := Time(b, width) - Time(a, width);
      var shown := if b.tick >= a.tick then b.tick - a.tick else b.tick + width - a.tick;
      (left.None? <==> elapsed >= f.held) <==>
        !(elapsed >= width && (b.tick < a.tick || CountOf(b.epoch) == CountOf(a.epoch)) && shown < f.held)
  {
    if b.epoch <= a.epoch + 1 {
      CheckIsExact(f, a, b, width);
      CountsDiffer(a.epoch);
    } else {
      EpochsApart(a.epoch, b.epoch, width);
    }
  }

  /** A tick of ten values: of 8 asked for 17 have passed, 7 show, and the check says that 1 is left. */
  lemma LateCheckErrs()
    ensures var f, a, b := Frame(8, 5, 0), Moment(0, 5), Moment(2, 2);
      && ChargedAt(f, a, 10) && Before(a, b) && Time(b, 10) - Time(a, 10) == 17
      && Check(f, b.tick, CountOf(b.epoch), 10) == (Frame(1, 2, 2), Some(1))
  {
    assert CountOf(1) == 1 && CountOf(2) == 2;
    assert EpochStart(1, 10) == 10 && EpochStart(2, 10) == 20;
  }

  /** An indefinite wait never times out and is never charged. */
  lemma IndefiniteNeverTimesOut(f: Frame, now: nat, overflows: nat, width: nat)
    requires now < width && f.entering < width && f.held == width - 1
    ensures Check(f, now, overflows, width) == (f, Some(width - 1))
  {
  }

  // ------------------------------------------------------ any number of retries --

  /** The checks of one blocking call, until one says the time is up. */
  ghost function Checks(f: Frame, at: seq<Moment>, width: nat): (Frame, Option<nat>)
    requires f.entering < width && forall i :: 0 <= i < |at| ==> at[i].tick < width
    decreases |at|
  {
    if at == [] then (f, Some(f.held)) else
      var (g, left) := Check(f, at[0].tick, CountOf(at[0].epoch), width);
      if left.None? then (g, None) else Checks(g, at[1..], width)
  }

  /** Each check comes no more than one wrap after the one before. */
  predicate Paced(a: Moment, at: seq<Moment>, width: nat)
    decreases |at|
  {
    at == [] || (at[0].tick < width && Before(a, at[0]) && at[0].epoch <= a.epoch + 1 && Paced(at[0], at[1..], width))
  }

  /** Block time is charged exactly once: whatever number of checks a call takes, what is left and what
      has passed since the call began are together what was asked for, and a check ends the call as soon
      as the time passed reaches that and not before. */
  lemma {:induction false} ChargedExactlyOnce(f: Frame, a: Moment, at: seq<Moment>, width: nat)
    requires ChargedAt(f, a, width) && Paced(a, at, width) && 0 < f.held < width - 1
    requires forall i :: 0 <= i < |at| ==> at[i].tick < width
    ensures var (g, left) := Checks(f, at, width);
      var last := if at == [] then a else at[|at| - 1];
      && Time(last, width) >= Time(a, width)
      && (left.None? <==> Time(last, width) - Time(a, width) >= f.held)
      && (left.Some? ==> left.value + (Time(last, width) - Time(a, width)) == f.held && ChargedAt(g, last, width))
    decreases |at|
  {
    if at != [] {
      var b := at[0];
      CheckIsExact(f, a, b, width);
      var (g, left) := Check(f, b.tick, CountOf(b.epoch), width);
      if left.Some? {
        ChargedExactlyOnce(g, b, at[1..], width);
        assert at[|at| - 1] == if at[1..] == [] then b else at[1..][|at[1..]| - 1];
      } else {
        LaterIsLater(b, at[1..], width);
        assert at[|at| - 1] == if at[1..] == [] then b else at[1..][|at[1..]| - 1];
      }
    }
  }

  lemma {:induction false} LaterIsLater(a: Moment, at: seq<Moment>, width: nat)
    requires Paced(a, at, width) && a.tick < width
    ensures Time(if at == [] then a else at[|at| - 1], width) >= Time(a, width)
    decreases |at|
  {
    if at != [] {
      LaterIsLater(at[0], at[1..], width);
      if at[0].epoch > a.epoch { assert EpochStart(at[0].epoch, width) == EpochStart(a.epoch, width) + width; }
    }
  }

  // -------------------------------------------------------------- the frame --

  type Width = w: nat | 2 <= w witness 2

  class WaitFrame {
    /** How many values the tick takes. */
    const width: Width
    var queue: nat
    var held: nat
    var entering: nat
    var overflows: nat
    var entrySet: bool
    var delayAborted: bool

    function View(): Frame
      reads this
    {
      Frame(held, entering, overflows)
    }

    constructor (width: Width)
      ensures !entrySet && !delayAborted && this.width == width && entering < width
    {
      this.width := width;
      queue, held, entering, overflows, entrySet, delayAborted := 0, 0, 0, 0, false, false;
    }

    /** `begin_wait`: the block time is cut to the tick's width, and only the first pass of a call
        writes the frame; no block time and no frame need none. */
    method BeginWait(queue: nat, ticks: nat, tick: nat, count: nat) returns (left: Option<nat>)
      requires tick < width
      modifies this`queue, this`held, this`entering, this`overflows, this`entrySet
      ensures var kept := old(entrySet) && old(this.queue) == queue;
        if ticks % width == 0 && !old(entrySet) then left == None && View() == old(View()) && !entrySet
        else
          && entrySet && this.queue == queue && left == Some(held)
          && View() == if kept then old(View()) else Frame(ticks % width, tick, count)
    {
      var blockTime := ticks % width;
      if blockTime == 0 && !entrySet {
        return None;
      }
      if this.queue != queue || !entrySet {
        this.queue, held, entering, overflows, entrySet := queue, blockTime, tick, count, true;
      }
      left := Some(held);
    }

    method EndWait()
      modifies this`held, this`entering, this`overflows, this`entrySet
      ensures !entrySet && View() == if old(entrySet) then Frame(0, 0, 0) else old(View())
    {
      if entrySet {
        held, entering, overflows, entrySet := 0, 0, 0, false;
      }
    }

    /** `check_for_timeout`: an abort ends the wait once, whatever time is left. */
    method CheckForTimeout(tick: nat, count: nat) returns (left: Option<nat>)
      requires tick < width && entering < width
      modifies this`held, this`entering, this`overflows, this`delayAborted
      ensures !delayAborted && entering < width
      ensures (View(), left) == if old(delayAborted) then (old(View()), None) else Check(old(View()), tick, count, width)
      ensures !old(delayAborted) && left.None? ==> View() == old(View()).(held := 0)
      ensures !old(delayAborted) && left.Some? && old(held) < width - 1 ==>
        && held == left.value && entering == tick && overflows == count && left.value <= old(held)
        && (held == old(held) - (tick - old(entering)) || held == old(held) - (tick + width - old(entering)))
    {
      if delayAborted {
        delayAborted := false;
        return None;
      }
      var elapsed := if tick >= entering then tick - entering else tick + width - entering;
      if held == width - 1 {
        left := Some(held);
      } else if count != overflows && tick >= entering {
        held := 0;
        left := None;
      } else if elapsed < held {
        held, entering, overflows := held - elapsed, tick, count;
        left := Some(held);
      } else {
        held := 0;
        left := None;
      }
    }
  }
}
