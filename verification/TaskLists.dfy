/** The kernel's lists of tasks, as far as it uses the list library: each of a task's two items is on one
    list at a time, is put at the end or at its sorted place, and can be taken off wherever it stands. */
module TaskLists {
  import opened Basics

  /** The list at a place.  An item that is on no list is kept, in the model, at a place of its own. */
  function On<P(==)>(lists: map<P, seq<TaskId>>, p: P): seq<TaskId> {
    if p in lists then lists[p] else []
  }

  function Inserted(list: seq<TaskId>, t: TaskId, at: nat): seq<TaskId>
    requires at <= |list|
  {
    list[..at] + [t] + list[at..]
  }

  function Moved<P(==)>(lists: map<P, seq<TaskId>>, t: TaskId, from: P, to: P, at: nat): map<P, seq<TaskId>>
    requires at <= |On(lists, to)|
  {
    if from == to then lists
    else lists[from := Without(On(lists, from), t)][to := Inserted(On(lists, to), t, at)]
  }

  /** The lists hold each item once, and exactly where its container says. */
  ghost predicate Kept<P(!new)>(lists: map<P, seq<TaskId>>, container: map<TaskId, P>) {
    && (forall p :: Distinct(On(lists, p)))
    && (forall p, t :: t in On(lists, p) <==> t in container && container[t] == p)
  }

  lemma ItemAt<P(!new)>(lists: map<P, seq<TaskId>>, container: map<TaskId, P>, p: P, t: TaskId)
    requires Kept(lists, container)
    ensures t in On(lists, p) <==> t in container && container[t] == p
  {
  }

  /** Every item is on exactly one list, so the lists part the tasks among them. */
  lemma ListsPartItems<P(!new)>(lists: map<P, seq<TaskId>>, container: map<TaskId, P>, t: TaskId)
    requires Kept(lists, container)
    ensures t in container ==> exists p :: t in On(lists, p)
    ensures forall p, q :: t in On(lists, p) && t in On(lists, q) ==> p == q
    ensures forall p :: t in On(lists, p) ==> multiset(On(lists, p))[t] == 1
  {
    if t in container { assert t in On(lists, container[t]); }
    forall p | t in On(lists, p) ensures multiset(On(lists, p))[t] == 1 {
      CountedOnce(On(lists, p), t);
    }
  }

  lemma InsertedFacts(list: seq<TaskId>, t: TaskId, at: nat)
    requires Distinct(list) && t !in list && at <= |list|
    ensures Distinct(Inserted(list, t, at))
    ensures forall u :: u in Inserted(list, t, at) <==> u in list || u == t
  {
    var r := Inserted(list, t, at);
    forall u ensures u in r <==> u in list || u == t {
      assert list == list[..at] + list[at..];
    }
    forall k | 0 <= k < |r| ensures r[k] == if k < at then list[k] else if k == at then t else list[k - 1] {
    }
  }

  /** One list replaced, by one that has or lacks one item. */
  lemma Replaced<P(!new)>(lists: map<P, seq<TaskId>>, p: P, list: seq<TaskId>, q: P)
    ensures On(lists[p := list], q) == if q == p then list else On(lists, q)
  {
  }

  lemma AddedKeeps<P(!new)>(lists: map<P, seq<TaskId>>, container: map<TaskId, P>, t: TaskId, to: P, at: nat)
    requires Kept(lists, container) && t !in container && at <= |On(lists, to)|
    ensures Kept(lists[to := Inserted(On(lists, to), t, at)], container[t := to])
  {
    assert t !in On(lists, to);
    InsertedFacts(On(lists, to), t, at);
    var list := Inserted(On(lists, to), t, at);
    var after, where := lists[to := list], container[t := to];
    hide On, Inserted, Distinct;
    forall p ensures Distinct(On(after, p)) {
      Replaced(lists, to, list, p);
    }
    forall p, u ensures u in On(after, p) <==> u in where && where[u] == p {
      Replaced(lists, to, list, p);
    }
  }

  lemma DroppedKeeps<P(!new)>(lists: map<P, seq<TaskId>>, container: map<TaskId, P>, t: TaskId)
    requires Kept(lists, container) && t in container
    ensures Kept(lists[container[t] := Without(On(lists, container[t]), t)], container - {t})
  {
    var from := container[t];
    WithoutFacts(On(lists, from), t);
    var list := Without(On(lists, from), t);
    var after, where := lists[from := list], container - {t};
    hide On, Without, Distinct;
    forall p ensures Distinct(On(after, p)) {
      Replaced(lists, from, list, p);
    }
    forall p, u ensures u in On(after, p) <==> u in where && where[u] == p {
      Replaced(lists, from, list, p);
    }
  }

  lemma MovedKeeps<P(!new)>(lists: map<P, seq<TaskId>>, container: map<TaskId, P>, t: TaskId, to: P, at: nat)
    requires Kept(lists, container) && t in container && at <= |On(lists, to)|
    ensures Kept(Moved(lists, t, container[t], to, at), container[t := to])
  {
    var from := container[t];
    if from != to {
      DroppedKeeps(lists, container, t);
      var left := lists[from := Without(On(lists, from), t)];
      Replaced(lists, from, Without(On(lists, from), t), to);
      AddedKeeps(left, container - {t}, t, to, at);
      assert (container - {t})[t := to] == container[t := to];
    } else {
      assert container[t := to] == container;
    }
  }
}
