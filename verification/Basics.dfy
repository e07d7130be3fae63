/** What the parts of the kernel share: handles, optional and fallible results, lists of distinct items,
    and remainders. */
module Basics {
  type TaskId = nat
  type Handle = nat

  datatype Option<+T> = None | Some(value: T)

  datatype Error = InvalidArgument | OutOfRoom | QueueFull | QueueEmpty | Gone

  datatype Result<+T> = Ok(value: T) | Err(error: Error)

  predicate Distinct<T(==)>(list: seq<T>) {
    forall i, j :: 0 <= i < j < |list| ==> list[i] != list[j]
  }

  /** A list without its first occurrence of an item. */
  function Without<T(==)>(list: seq<T>, x: T): seq<T> {
    if list == [] then [] else if list[0] == x then list[1..] else [list[0]] + Without(list[1..], x)
  }

  lemma {:induction false} WithoutFacts<T(!new)>(list: seq<T>, x: T)
    requires Distinct(list)
    ensures Distinct(Without(list, x))
    ensures forall u :: u in Without(list, x) <==> u in list && u != x
  {
    if list != [] {
      WithoutFacts(list[1..], x);
      assert list == [list[0]] + list[1..];
      forall k | 1 <= k < |list| ensures list[k] != list[0] && list[k] == list[1..][k - 1] {
      }
      var rest := Without(list[1..], x);
      forall k | 0 <= k < |rest| ensures rest[k] != list[0] {
        var u := rest[k];
        assert u in rest && u in list[1..];
      }
    }
  }

  /** The items of a list that are in a set, in their order. */
  function Among<T(==)>(list: seq<T>, s: set<T>): seq<T> {
    if list == [] then [] else (if list[0] in s then [list[0]] else []) + Among(list[1..], s)
  }

  lemma {:induction false} AmongSplits<T>(a: seq<T>, b: seq<T>, s: set<T>)
    ensures Among(a + b, s) == Among(a, s) + Among(b, s)
  {
    if a == [] {
      assert a + b == b;
    } else {
      assert (a + b)[0] == a[0] && (a + b)[1..] == a[1..] + b;
      AmongSplits(a[1..], b, s);
      var first := if a[0] in s then [a[0]] else [];
      assert first + (Among(a[1..], s) + Among(b, s)) == first + Among(a[1..], s) + Among(b, s);
    }
  }

  /** Only which of the list's own items are in the set matters. */
  lemma {:induction false} AmongAlike<T>(list: seq<T>, s: set<T>, r: set<T>)
    requires forall x :: x in list ==> (x in s <==> x in r)
    ensures Among(list, s) == Among(list, r)
  {
    if list != [] {
      assert list == [list[0]] + list[1..];
      AmongAlike(list[1..], s, r);
    }
  }

  lemma {:induction false} AmongFacts<T>(list: seq<T>, s: set<T>)
    ensures forall x :: x in Among(list, s) <==> x in list && x in s
    ensures (forall x :: x in list ==> x in s) ==> Among(list, s) == list
    ensures (forall x :: x in list ==> x !in s) ==> Among(list, s) == []
  {
    if list != [] {
      assert list == [list[0]] + list[1..];
      AmongFacts(list[1..], s);
    }
  }

  /** A list whose front is in one set and whose rest is in another. */
  lemma AmongHalves<T>(list: seq<T>, k: nat, s: set<T>, r: set<T>)
    requires k <= |list|
    requires forall i :: 0 <= i < k ==> list[i] in s && list[i] !in r
    requires forall i :: k <= i < |list| ==> list[i] !in s && list[i] in r
    ensures Among(list, s) == list[..k] && Among(list, r) == list[k..]
  {
    hide Among;
    var a, b := list[..k], list[k..];
    assert list == a + b;
    forall x | x in a ensures x in s && x !in r {
      var i :| 0 <= i < k && list[i] == x;
    }
    forall x | x in b ensures x !in s && x in r {
      var i :| 0 <= i < |b| && b[i] == x;
      assert list[k + i] == x;
    }
    AmongSplits(a, b, s);
    AmongSplits(a, b, r);
    AmongFacts(a, s);
    AmongFacts(a, r);
    AmongFacts(b, s);
    AmongFacts(b, r);
  }

  lemma {:induction false} CountedOnce<T>(list: seq<T>, x: T)
    requires Distinct(list)
    ensures multiset(list)[x] == if x in list then 1 else 0
  {
    if list != [] {
      assert list == [list[0]] + list[1..];
      CountedOnce(list[1..], x);
    }
  }

  lemma OneMoreTime(n: nat, width: nat)
    requires n > 0
    ensures n * width == (n - 1) * width + width
  {
  }

  lemma {:induction false} Grows(p: nat, q: nat, width: nat)
    ensures p < q ==> p * width + width <= q * width
  {
    if p < q {
      OneMoreTime(q, width);
      Grows(p, q - 1, width);
    }
  }

  lemma Remainder(q: nat, r: nat, width: nat)
    requires r < width
    ensures (q * width + r) % width == r
  {
    var x := q * width + r;
    var p := x / width;
    assert x == p * width + x % width;
    Grows(p, q, width);
    Grows(q, p, width);
  }

  lemma Quotient(q: nat, r: nat, width: nat)
    requires r < width
    ensures (q * width + r) / width == q
  {
    var x := q * width + r;
    var p := x / width;
    assert x == p * width + x % width;
    Grows(p, q, width);
    Grows(q, p, width);
  }
}
