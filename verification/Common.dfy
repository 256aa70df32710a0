/** Vocabulary shared by every module: optional values, tagged table rows and small arithmetic. */
module Common {
  datatype Option<+T> = None | Some(value: T)

  type TaskId = nat   // tasks.id, a UUID in the database
  type Time = real    // timestamps and durations, in seconds

  /** A row of a table that references `tasks (id)`; rows are listed in serial-id order. */
  datatype Entry<T> = Entry(task: TaskId, value: T)

  function Max(a: int, b: int): int {
    if a < b then b else a
  }

  lemma SubsetSize<T>(a: set<T>, b: set<T>)
    requires a <= b
    ensures |a| <= |b|
  {
    assert b == a + (b - a);
  }

  ghost predicate Distinct<T>(xs: seq<T>) {
    forall i, j :: 0 <= i < j < |xs| ==> xs[i] != xs[j]
  }

  ghost function Elems<T(!new)>(xs: seq<T>): (s: set<T>)
    ensures forall x :: x in s <==> x in xs
  {
    set x | x in xs
  }

  lemma {:induction false} DistinctSize<T(!new)>(xs: seq<T>)
    requires Distinct(xs)
    ensures |Elems(xs)| == |xs|
    decreases |xs|
  {
    if xs != [] {
      var init, last := xs[..|xs| - 1], xs[|xs| - 1];
      DistinctSize(init);
      assert last !in init;
      assert Elems(xs) == Elems(init) + {last};
    }
  }

  lemma DistinctConcat<T>(a: seq<T>, b: seq<T>)
    ensures Distinct(a + b) <==> Distinct(a) && Distinct(b) && forall x :: !(x in a && x in b)
  {
    var c := a + b;
    assert forall i :: 0 <= i < |a| ==> c[i] == a[i];
    assert forall j :: 0 <= j < |b| ==> c[|a| + j] == b[j];
    if x :| x in a && x in b {
      var i :| 0 <= i < |a| && a[i] == x;
      var j :| 0 <= j < |b| && b[j] == x;
      assert c[i] == c[|a| + j];
    } else {
      forall i, j | 0 <= i < |a| <= j < |c|
        ensures c[i] != c[j]
      {
        assert c[i] in a && c[j] in b;
      }
    }
    if Distinct(c) {
      forall i, j | 0 <= i < j < |b|
        ensures b[i] != b[j]
      {
        assert c[|a| + i] != c[|a| + j];
      }
    }
  }

  /** The rows of one task, oldest first. */
  function ForTask<T>(xs: seq<Entry<T>>, t: TaskId): seq<T> {
    if xs == [] then []
    else
      var older := ForTask(xs[..|xs| - 1], t);
      var last := xs[|xs| - 1];
      if last.task == t then older + [last.value] else older
  }

  /** The table after `DELETE ... WHERE task_id IN gone`. */
  function Without<T>(xs: seq<Entry<T>>, gone: set<TaskId>): seq<Entry<T>> {
    if xs == [] then []
    else
      var older := Without(xs[..|xs| - 1], gone);
      var last := xs[|xs| - 1];
      if last.task in gone then older else older + [last]
  }

  lemma ForTaskAppend<T>(xs: seq<Entry<T>>, e: Entry<T>, t: TaskId)
    ensures ForTask(xs + [e], t) == if e.task == t then ForTask(xs, t) + [e.value] else ForTask(xs, t)
  {
    assert (xs + [e])[..|xs|] == xs;
  }

  lemma ForTaskAppendAll<T>(xs: seq<Entry<T>>, e: Entry<T>)
    ensures forall t :: ForTask(xs + [e], t) == if e.task == t then ForTask(xs, t) + [e.value] else ForTask(xs, t)
  {
    forall t {
      ForTaskAppend(xs, e, t);
    }
  }

  lemma {:induction false} ForTaskWithout<T>(xs: seq<Entry<T>>, gone: set<TaskId>, t: TaskId)
    ensures ForTask(Without(xs, gone), t) == if t in gone then [] else ForTask(xs, t)
  {
    if xs != [] {
      var older, last := xs[..|xs| - 1], xs[|xs| - 1];
      ForTaskWithout(older, gone, t);
      if last.task !in gone {
        ForTaskAppend(Without(older, gone), last, t);
      }
    }
  }

  lemma ForTaskWithoutAll<T>(xs: seq<Entry<T>>, gone: set<TaskId>)
    ensures forall t :: ForTask(Without(xs, gone), t) == if t in gone then [] else ForTask(xs, t)
  {
    forall t {
      ForTaskWithout(xs, gone, t);
    }
  }
}
