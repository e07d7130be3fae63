/** The allocator itself, as the kernel runs it: a fixed array of free extents, how many entries of
    it are in use, and the bump pointer. */
module ExtentPools {
  import opened Basics
  import opened Extents

  ghost function Elems(s: seq<Extent>): set<Extent> {
    set e | e in s
  }

  /** Dropping entry `index` of the free list: the last entry takes its place. */
  function SwapRemove(s: seq<Extent>, index: nat): (r: seq<Extent>)
    requires index < |s|
    ensures |r| == |s| - 1
  {
    var last := |s| - 1;
    if index < last then s[..last][index := s[last]] else s[..last]
  }

  lemma SwapRemoveElems(s: seq<Extent>, index: nat)
    requires index < |s| && Distinct(s)
    ensures Distinct(SwapRemove(s, index))
    ensures Elems(SwapRemove(s, index)) == Elems(s) - {s[index]}
    ensures SwapRemove(s, index)[..index] == s[..index]
  {
    var r, last := SwapRemove(s, index), |s| - 1;
    forall e | e in Elems(s) - {s[index]} ensures e in r {
      var k :| 0 <= k < |s| && s[k] == e;
      if k == last { assert r[index] == e; } else { assert r[k] == e; }
    }
    forall e | e in r ensures e in Elems(s) - {s[index]} {
      var k :| 0 <= k < |r| && r[k] == e;
      if k == index { assert s[last] == e; } else { assert s[k] == e; }
    }
  }

  /** Shrinking entry `index` of a free list to a different extent. */
  lemma ReplaceElems(s: seq<Extent>, index: nat, e: Extent)
    requires index < |s| && Distinct(s) && e !in s
    ensures Distinct(s[index := e])
    ensures Elems(s[index := e]) == Elems(s) - {s[index]} + {e}
  {
    var r := s[index := e];
    forall x | x in Elems(s) - {s[index]} + {e} ensures x in r {
      if x == e { assert r[index] == e; } else {
        var k :| 0 <= k < |s| && s[k] == x;
        assert r[k] == x;
      }
    }
    forall x | x in r ensures x in Elems(s) - {s[index]} + {e} {
      var k :| 0 <= k < |r| && r[k] == x;
      if k != index { assert s[k] == x; }
    }
  }

  lemma DistinctSize(s: seq<Extent>)
    requires Distinct(s)
    ensures |Elems(s)| == |s|
  {
    if s == [] {
      assert Elems(s) == {};
    } else {
      var front, e := s[..|s| - 1], s[|s| - 1];
      DistinctSize(front);
      assert s == front + [e];
      assert Elems(s) == Elems(front) + {e};
    }
  }

  /** Some free extent is long enough. */
  predicate Fits(s: seq<Extent>, length: nat) {
    exists i :: 0 <= i < |s| && length <= s[i].len
  }

  // The cutting and joining lemmas of Extents, as the two operations meet them.

  lemma TakeWhole(live: set<Extent>, free: set<Extent>, used: nat, x: Extent)
    requires Tiles(live, free, used) && x in free
    ensures Tiles(live + {x}, free - {x}, used)
  {
    assert live + {x} + (free - {x}) == live + free;
  }

  lemma TakePart(live: set<Extent>, free: set<Extent>, used: nat, x: Extent, length: nat)
    requires Tiles(live, free, used) && x in free && 0 < length < x.len
    ensures var a, b := Extent(x.base, length), Extent(x.base + length, x.len - length);
      a !in live + free && b !in live + free && Tiles(live + {a}, free - {x} + {b}, used)
  {
    var a, b := Extent(x.base, length), Extent(x.base + length, x.len - length);
    SplitPiece(live + free, used, x, length);
    assert live + {a} + (free - {x} + {b}) == live + free - {x} + {a, b};
    forall y | y in free - {x} ensures !Touch(y, b) && !Touch(b, y) {
      assert !Touch(x, y);
      assert y in live + free && Apart(y, x);
    }
  }

  lemma TakeTail(live: set<Extent>, free: set<Extent>, used: nat, length: nat)
    requires Tiles(live, free, used) && 0 < length
    ensures Extent(used, length) !in live + free
    ensures Tiles(live + {Extent(used, length)}, free, used + length)
  {
    ExtendEnd(live + free, used, length);
    assert live + {Extent(used, length)} + free == live + free + {Extent(used, length)};
    assert forall x :: x in free ==> x in live + free;
  }

  /** The state inside `give`: `block` is out of `live` but not yet back on the free list, and the
      first `seen` entries of the list are known not to be its neighbours. */
  ghost predicate Giving(live: set<Extent>, list: seq<Extent>, used: nat, block: Extent, seen: nat) {
    && Distinct(list)
    && seen <= |list|
    && live !! Elems(list)
    && block !in live + Elems(list)
    && Partition(live + Elems(list) + {block}, used)
    && Coalesced(Elems(list))
    && ClearOf(Elems(list), used)
    && (forall j :: 0 <= j < seen ==> !Touch(list[j], block) && !Touch(block, list[j]))
  }

  lemma GivingStarts(live: set<Extent>, list: seq<Extent>, used: nat, block: Extent)
    requires Distinct(list) && block in live && Tiles(live, Elems(list), used)
    ensures Giving(live - {block}, list, used, block, 0)
  {
    assert live - {block} + Elems(list) + {block} == live + Elems(list);
  }

  /** The block swallows entry `at`, which touches it on either side. */
  lemma GivingJoins(live: set<Extent>, list: seq<Extent>, used: nat, block: Extent, at: nat, joined: Extent)
    requires at < |list| && Giving(live, list, used, block, at)
    requires Touch(list[at], block) || Touch(block, list[at])
    requires joined.len == block.len + list[at].len
    requires joined.base == if Touch(list[at], block) then list[at].base else block.base
    ensures Giving(live, SwapRemove(list, at), used, joined, at)
  {
    var other, free := list[at], Elems(list);
    SwapRemoveElems(list, at);
    var all := live + free + {block};
    assert other in free;
    assert all - {other, block} == live + (free - {other}) by {
      assert other !in live && block !in live + free;
    }
    if Touch(other, block) {
      JoinPieces(all, used, other, block);
      assert joined == Extent(other.base, other.len + block.len);
    } else {
      JoinPieces(all, used, block, other);
      assert {block, other} == {other, block};
    }
    assert joined !in live + (free - {other});
    forall j | 0 <= j < at
      ensures !Touch(SwapRemove(list, at)[j], joined) && !Touch(joined, SwapRemove(list, at)[j])
    {
      assert SwapRemove(list, at)[j] == SwapRemove(list, at)[..at][j] == list[..at][j] == list[j];
      assert list[j] in free;
      assert !Touch(list[j], other) && !Touch(other, list[j]);
    }
  }

  lemma GivingEndsAtTail(live: set<Extent>, list: seq<Extent>, used: nat, block: Extent)
    requires Giving(live, list, used, block, |list|) && block.End() == used
    ensures Tiles(live, Elems(list), block.base)
  {
    DropEnd(live + Elems(list) + {block}, used, block);
    assert live + Elems(list) + {block} - {block} == live + Elems(list);
    forall x | x in Elems(list) ensures x.End() != block.base {
      var k :| 0 <= k < |list| && list[k] == x;
      assert !Touch(list[k], block);
    }
  }

  lemma GivingEndsOnList(live: set<Extent>, list: seq<Extent>, used: nat, block: Extent)
    requires Giving(live, list, used, block, |list|) && block.End() != used
    ensures Distinct(list + [block])
    ensures Elems(list + [block]) == Elems(list) + {block}
    ensures Tiles(live, Elems(list + [block]), used)
  {
    assert Elems(list + [block]) == Elems(list) + {block};
    assert live + (Elems(list) + {block}) == live + Elems(list) + {block};
    forall x, y | x in Elems(list) + {block} && y in Elems(list) + {block} ensures !Touch(x, y) {
      if x != block && y == block {
        var k :| 0 <= k < |list| && list[k] == x;
      } else if x == block && y != block {
        var k :| 0 <= k < |list| && list[k] == y;
      } else if x == block && y == block {
        assert block in live + Elems(list) + {block};
      }
    }
  }

  /** Where the list has no room the block is recorded nowhere, which is to say nobody will ever
      give it back: from then on it tiles like a live extent. */
  lemma GivingStrands(live: set<Extent>, list: seq<Extent>, used: nat, block: Extent)
    requires Giving(live, list, used, block, |list|)
    ensures Tiles(live + {block}, Elems(list), used)
  {
    assert live + {block} + Elems(list) == live + Elems(list) + {block};
  }

  /** There is an extent still out for every entry on the list, the new one included. */
  lemma GivingNeedsRoom(live: set<Extent>, list: seq<Extent>, used: nat, block: Extent)
    requires Giving(live, list, used, block, |list|) && block.End() != used
    ensures |list| + 1 <= |live|
  {
    GivingEndsOnList(live, list, used, block);
    HolesAtMostLive(live, Elems(list + [block]), used);
    DistinctSize(list + [block]);
  }

  class ExtentPool {
    /** `free_slots` / `free_blocks`: one entry per descriptor the kernel has room for. */
    const free: array<Extent>
    /** `SLOTS` / `BYTES`. */
    const capacity: nat
    var count: nat
    var used: nat
    /** The extents objects hold now. */
    ghost var live: set<Extent>
    /** Extents no object holds and no list records. */
    ghost var stranded: set<Extent>

    ghost predicate Valid()
      reads this, free
    {
      && count <= free.Length
      && used <= capacity
      && Distinct(free[..count])
      && live !! stranded
      && Tiles(live + stranded, Elems(free[..count]), used)
    }

    constructor (entries: nat, capacity: nat)
      ensures Valid() && fresh(free)
      ensures free.Length == entries && this.capacity == capacity
      ensures count == 0 && used == 0 && live == {} && stranded == {}
    {
      free := new Extent[entries](_ => Extent(0, 0));
      this.capacity := capacity;
      count, used := 0, 0;
      live, stranded := {}, {};
    }

    method DropFree(index: nat)
      requires index < count <= free.Length
      modifies this`count, free
      ensures count == old(count) - 1
      ensures free[..count] == SwapRemove(old(free[..count]), index)
    {
      var last := count - 1;
      if index < last {
        free[index] := free[last];
      }
      count := last;
    }

    /** First fit from the free list, and only then from the untouched end.  Refuses exactly when
        neither has room, and then changes nothing. */
    method Take(length: nat) returns (r: Option<nat>)
      requires Valid() && 0 < length
      modifies this, free
      ensures Valid() && stranded == old(stranded)
      ensures r.None? <==> !Fits(old(free[..count]), length) && old(used) + length > capacity
      ensures r.None? ==> live == old(live) && used == old(used) && free[..count] == old(free[..count])
      ensures r.Some? ==>
        Extent(r.value, length) !in old(live) && live == old(live) + {Extent(r.value, length)}
      ensures r.Some? && !Fits(old(free[..count]), length) ==>
        r.value == old(used) && used == old(used) + length
      ensures r.Some? && Fits(old(free[..count]), length) ==>
        used == old(used)
        && exists i ::
          && 0 <= i < old(count)
          && r.value == old(free[..count])[i].base
          && length <= old(free[..count])[i].len
          && forall j :: 0 <= j < i ==> old(free[..count])[j].len < length
    {
      ghost var list := free[..count];
      var i := 0;
      while i < count
        invariant 0 <= i <= count == old(count) && free[..count] == list
        invariant live == old(live) && stranded == old(stranded) && used == old(used) && Valid()
        invariant forall j :: 0 <= j < i ==> list[j].len < length
      {
        var hole := free[i];
        assert hole == list[i] && hole in Elems(list);
        if hole.len >= length {
          if hole.len == length {
            SwapRemoveElems(list, i);
            TakeWhole(live + stranded, Elems(list), used, hole);
            DropFree(i);
          } else {
            TakePart(live + stranded, Elems(list), used, hole, length);
            ReplaceElems(list, i, Extent(hole.base + length, hole.len - length));
            free[i] := Extent(hole.base + length, hole.len - length);
            assert free[..count] == list[i := Extent(hole.base + length, hole.len - length)];
          }
          live := live + {Extent(hole.base, length)};
          assert live + stranded == old(live) + stranded + {Extent(hole.base, length)};
          return Some(hole.base);
        }
        i := i + 1;
      }
      if used + length > capacity {
        return None;
      }
      TakeTail(live + stranded, Elems(list), used, length);
      r := Some(used);
      live := live + {Extent(used, length)};
      used := used + length;
      assert live + stranded == old(live) + stranded + {Extent(old(used), length)};
    }

    /** The walk of `give`: the block swallows every hole that touches it, on either side, until
        none is left that does. */
    method Coalesce(base: nat, length: nat, ghost rest: set<Extent>) returns (b: nat, l: nat)
      requires count <= free.Length && Giving(rest, free[..count], used, Extent(base, length), 0)
      modifies this`count, free
      ensures count <= old(count)
      ensures Giving(rest, free[..count], used, Extent(b, l), count)
    {
      b, l := base, length;
      var i: nat := 0;
      while i < count
        invariant count <= old(count)
        invariant Giving(rest, free[..count], used, Extent(b, l), i)
        decreases count - i
      {
        var other := free[i];
        assert other == free[..count][i];
        if other.base + other.len == b {
          GivingJoins(rest, free[..count], used, Extent(b, l), i, Extent(other.base, l + other.len));
          b := other.base;
          l := l + other.len;
          DropFree(i);
        } else if b + l == other.base {
          GivingJoins(rest, free[..count], used, Extent(b, l), i, Extent(b, l + other.len));
          l := l + other.len;
          DropFree(i);
        } else {
          i := i + 1;
        }
      }
    }

    /** Gives an extent back, swallowing whichever holes touch it.  As long as there is one list
        entry per extent still out, nothing is ever stranded. */
    method Give(base: nat, length: nat)
      requires Valid() && Extent(base, length) in live
      modifies this, free
      ensures Valid()
      ensures live == old(live) - {Extent(base, length)}
      ensures stranded >= old(stranded)
      ensures |live + old(stranded)| <= free.Length ==> stranded == old(stranded)
    {
      GivingStarts(live + stranded, free[..count], used, Extent(base, length));
      assert live + stranded - {Extent(base, length)} == live - {Extent(base, length)} + stranded;
      live := live - {Extent(base, length)};
      var b, l := Coalesce(base, length, live + stranded);
      if b + l == used {
        GivingEndsAtTail(live + stranded, free[..count], used, Extent(b, l));
        used := b;
      } else {
        Record(b, l);
      }
    }

    /** The end of `give`: the block goes on the list, if the list has room. */
    method Record(b: nat, l: nat)
      requires count <= free.Length && used <= capacity && live !! stranded
      requires Giving(live + stranded, free[..count], used, Extent(b, l), count) && b + l != used
      modifies this`count, this`stranded, free
      ensures Valid()
      ensures stranded >= old(stranded)
      ensures |live + old(stranded)| <= free.Length ==> stranded == old(stranded)
    {
      ghost var list := free[..count];
      if count < free.Length {
        GivingEndsOnList(live + stranded, list, used, Extent(b, l));
        free[count] := Extent(b, l);
        count := count + 1;
        assert free[..count] == list + [Extent(b, l)];
      } else {
        GivingNeedsRoom(live + stranded, list, used, Extent(b, l));
        GivingStrands(live + stranded, list, used, Extent(b, l));
        stranded := stranded + {Extent(b, l)};
        assert live + stranded == live + old(stranded) + {Extent(b, l)};
      }
    }
  }
}
