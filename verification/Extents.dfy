/** The first-fit coalescing extent allocator under the queue slots and under the stream bytes:
    `take_slots` / `give_slots` in queue.rs, and the same code over bytes in stream.rs.

    An arena is the integers [0, used), where `used` is the bump pointer.  The extents that live
    objects hold and the extents on the free list tile that range.  The free list is coalesced but
    not sorted: dropping an entry moves the last one into its place. */
module Extents {

  datatype Extent = Extent(base: nat, len: nat) {
    function End(): nat { base + len }

    predicate Has(cell: nat) { base <= cell < End() }
  }

  // ------------------------------------------------------------ tilings --

  ghost predicate Apart(x: Extent, y: Extent) {
    x.End() <= y.base || y.End() <= x.base
  }

  ghost predicate Covered(all: set<Extent>, cell: nat) {
    exists e :: e in all && e.Has(cell)
  }

  /** The extents of `all` cut [0, used) into pieces: none empty, no overlap, nothing left over. */
  ghost predicate Partition(all: set<Extent>, used: nat) {
    && (forall e :: e in all ==> 0 < e.len && e.End() <= used)
    && (forall x, y :: x in all && y in all && x != y ==> Apart(x, y))
    && (forall cell: nat :: cell < used ==> Covered(all, cell))
  }

  ghost predicate Touch(x: Extent, y: Extent) {
    x.End() == y.base
  }

  /** No two free extents are neighbours. */
  ghost predicate Coalesced(free: set<Extent>) {
    forall x, y :: x in free && y in free ==> !Touch(x, y)
  }

  ghost predicate ClearOf(free: set<Extent>, used: nat) {
    forall x :: x in free ==> x.End() != used
  }

  /** The allocator's invariant. */
  ghost predicate Tiles(live: set<Extent>, free: set<Extent>, used: nat) {
    && live !! free
    && Partition(live + free, used)
    && Coalesced(free)
    && ClearOf(free, used)
  }

  // ------------------------------------------------- what a tiling gives --

  lemma OwnerOfCell(all: set<Extent>, used: nat, cell: nat) returns (e: Extent)
    requires Partition(all, used) && cell < used
    ensures e in all && e.Has(cell)
  {
    assert Covered(all, cell);
    e :| e in all && e.Has(cell);
  }

  lemma NotNeighbours(free: set<Extent>, x: Extent, y: Extent)
    requires Coalesced(free) && x in free && y in free
    ensures x.End() != y.base
  {
    assert !Touch(x, y);
  }

  /** The bump pointer stands exactly at the end of the last live extent. */
  lemma UsedEndsAtLive(live: set<Extent>, free: set<Extent>, used: nat) returns (e: Extent)
    requires Tiles(live, free, used) && used > 0
    ensures e in live && e.End() == used
  {
    e := OwnerOfCell(live + free, used, used - 1);
  }

  lemma UsedIsBoundedBy(live: set<Extent>, f1: set<Extent>, u1: nat, f2: set<Extent>, u2: nat)
    requires Tiles(live, f1, u1) && Tiles(live, f2, u2)
    ensures u1 <= u2
  {
    if u1 > 0 {
      var e := UsedEndsAtLive(live, f1, u1);
      assert e in live + f2;
    }
  }

  /** The hole that starts at x in one tiling starts there in the other too. */
  lemma SameStart(live: set<Extent>, f1: set<Extent>, f2: set<Extent>, used: nat, x: Extent, y: Extent)
    requires Tiles(live, f1, used) && Tiles(live, f2, used)
    requires x in f1 && y in f2 && y.Has(x.base)
    ensures y.base == x.base
  {
    if y.base < x.base {
      var z := OwnerOfCell(live + f1, used, x.base - 1);
      assert x in live + f1 && y in live + f2;
      assert z in live ==> z in live + f2 && Apart(z, y);
      assert Apart(x, z);
      NotNeighbours(f1, z, x);
    }
  }

  lemma EndsNoLater(live: set<Extent>, f1: set<Extent>, f2: set<Extent>, used: nat, x: Extent, y: Extent)
    requires Tiles(live, f1, used) && Tiles(live, f2, used)
    requires x in f1 && y in f2 && y.base == x.base
    ensures x.End() <= y.End()
  {
    assert x in live + f1 && y in live + f2;
    if y.End() < x.End() {
      var z := OwnerOfCell(live + f2, used, y.End());
      assert z in live ==> z in live + f1 && Apart(z, x);
      assert Apart(y, z);
      NotNeighbours(f2, y, z);
    }
  }

  lemma HoleIsShared(live: set<Extent>, f1: set<Extent>, f2: set<Extent>, used: nat, x: Extent)
    requires Tiles(live, f1, used) && Tiles(live, f2, used)
    requires x in f1
    ensures x in f2
  {
    assert x in live + f1;
    var y := OwnerOfCell(live + f2, used, x.base);
    assert y in live ==> y in live + f1 && Apart(x, y);
    SameStart(live, f1, f2, used, x, y);
    EndsNoLater(live, f1, f2, used, x, y);
    EndsNoLater(live, f2, f1, used, y, x);
    assert x == y;
  }

  /** The allocator has no memory: what is live alone fixes the bump pointer and every hole,
      whatever history of creates and deletes led here. */
  lemma HistoryIndependent(live: set<Extent>, f1: set<Extent>, u1: nat, f2: set<Extent>, u2: nat)
    requires Tiles(live, f1, u1) && Tiles(live, f2, u2)
    ensures u1 == u2 && f1 == f2
  {
    UsedIsBoundedBy(live, f1, u1, f2, u2);
    UsedIsBoundedBy(live, f2, u2, f1, u1);
    forall x | x in f1 ensures x in f2 { HoleIsShared(live, f1, f2, u1, x); }
    forall x | x in f2 ensures x in f1 { HoleIsShared(live, f2, f1, u1, x); }
  }

  /** The pool is back to untouched exactly when nothing is live. */
  lemma EmptyExactlyWhenNothingLive(live: set<Extent>, free: set<Extent>, used: nat)
    requires Tiles(live, free, used)
    ensures used == 0 <==> live == {}
    ensures used == 0 ==> free == {}
  {
    if used > 0 {
      var e := UsedEndsAtLive(live, free, used);
    } else {
      assert forall e :: e in live || e in free ==> e in live + free;
      assert live == {} && free == {};
    }
  }

  /** Right behind every hole stands a live extent. */
  lemma LiveBehindHole(live: set<Extent>, free: set<Extent>, used: nat, hole: Extent) returns (e: Extent)
    requires Tiles(live, free, used) && hole in free
    ensures e in live && Touch(hole, e)
  {
    assert hole in live + free;
    e := OwnerOfCell(live + free, used, hole.End());
    assert Apart(hole, e);
    assert Touch(hole, e);
  }

  /** Never more holes than live extents, so a free list with one entry per live object cannot
      overflow. */
  lemma {:induction false} HolesAtMostLive(live: set<Extent>, free: set<Extent>, used: nat)
    requires Tiles(live, free, used)
    ensures |free| <= |live|
  {
    Injects(live, free, live, free, used);
  }

  lemma {:induction false} Injects(live: set<Extent>, free: set<Extent>, l: set<Extent>, f: set<Extent>, used: nat)
    requires Tiles(live, free, used)
    requires f <= free && l <= live
    requires forall h, e :: h in f && e in live && Touch(h, e) ==> e in l
    ensures |f| <= |l|
    decreases |f|
  {
    if f != {} {
      var h :| h in f;
      var e := LiveBehindHole(live, free, used, h);
      forall h', e' | h' in f - {h} && e' in live && Touch(h', e') ensures e' in l - {e} {
        assert h in live + free && h' in live + free;
        assert Apart(h, h');
      }
      Injects(live, free, l - {e}, f - {h}, used);
      assert |f| == |f - {h}| + 1 && |l| == |l - {e}| + 1;
    }
  }

  // ------------------------------------------------- cutting and joining --

  lemma ExtendEnd(all: set<Extent>, used: nat, len: nat)
    requires Partition(all, used) && 0 < len
    ensures Partition(all + {Extent(used, len)}, used + len)
    ensures Extent(used, len) !in all
  {
    var n := Extent(used, len);
    forall cell: nat | cell < used + len ensures Covered(all + {n}, cell) {
      if cell < used {
        var e := OwnerOfCell(all, used, cell);
        assert e in all + {n};
      } else {
        assert n in all + {n} && n.Has(cell);
      }
    }
  }

  lemma DropEnd(all: set<Extent>, used: nat, x: Extent)
    requires Partition(all, used) && x in all && x.End() == used
    ensures Partition(all - {x}, x.base)
  {
    forall cell: nat | cell < x.base ensures Covered(all - {x}, cell) {
      var e := OwnerOfCell(all, used, cell);
      assert e in all - {x};
    }
    forall e | e in all - {x} ensures e.End() <= x.base {
      assert Apart(e, x);
    }
  }

  /** Cutting x in two, or (read backwards) joining two neighbours. */
  lemma SplitPiece(all: set<Extent>, used: nat, x: Extent, len: nat)
    requires Partition(all, used) && x in all && 0 < len < x.len
    ensures Partition(all - {x} + {Extent(x.base, len), Extent(x.base + len, x.len - len)}, used)
    ensures Extent(x.base, len) !in all && Extent(x.base + len, x.len - len) !in all
  {
    var a, b := Extent(x.base, len), Extent(x.base + len, x.len - len);
    var cut := all - {x} + {a, b};
    assert a in all ==> Apart(a, x);
    assert b in all ==> Apart(b, x);
    forall cell: nat | cell < used ensures Covered(cut, cell) {
      var e := OwnerOfCell(all, used, cell);
      if e == x {
        var part := if a.Has(cell) then a else b;
        assert part in cut && part.Has(cell);
      } else {
        assert e in cut;
      }
    }
    forall y, z | y in cut && z in cut && y != z ensures Apart(y, z) {
      if y in all { assert Apart(y, x); }
      if z in all { assert Apart(z, x); }
    }
  }

  lemma JoinPieces(all: set<Extent>, used: nat, x: Extent, y: Extent)
    requires Partition(all, used) && x in all && y in all && Touch(x, y)
    ensures Partition(all - {x, y} + {Extent(x.base, x.len + y.len)}, used)
    ensures Extent(x.base, x.len + y.len) !in all
  {
    var n := Extent(x.base, x.len + y.len);
    var joined := all - {x, y} + {n};
    assert n in all ==> Apart(n, x);
    forall cell: nat | cell < used ensures Covered(joined, cell) {
      var e := OwnerOfCell(all, used, cell);
      if e == x || e == y {
        assert n in joined && n.Has(cell);
      } else {
        assert e in joined;
      }
    }
    forall e | e in all - {x, y} ensures Apart(e, n) && Apart(n, e) {
      assert Apart(e, x) && Apart(e, y);
    }
  }
}
