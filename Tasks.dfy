/**
 * The per-day task list as a value: a sequence of tasks in the order they
 * were added (which is also the display order), the list operations behind
 * `toggleTask` and `deleteTask`, and the two minute sums of `calcTaskMins`.
 */
module Tasks {
  import Inputs
  import Wrappers

  datatype Task = Task(id: string, name: string, minutes: int, done: bool)

  function Flip(t: Task): Task
  {
    t.(done := !t.done)
  }

  predicate HasId(ts: seq<Task>, id: string)
  {
    exists k :: 0 <= k < |ts| && ts[k].id == id
  }

  predicate UniqueIds(ts: seq<Task>)
  {
    forall i, j :: 0 <= i < j < |ts| ==> ts[i].id != ts[j].id
  }

  /** A task as `addTask` creates it: trimmed non-empty name, minutes in [1,240]. */
  predicate ValidTask(t: Task)
  {
    t.name != [] && !Inputs.IsSpace(t.name[0]) && !Inputs.IsSpace(t.name[|t.name| - 1]) &&
    1 <= t.minutes <= 240
  }

  /** The shape every list built by `addTask`, `toggleTask` and `deleteTask` has. */
  predicate WellFormed(ts: seq<Task>)
  {
    UniqueIds(ts) && forall k :: 0 <= k < |ts| ==> ValidTask(ts[k])
  }

  /** Position of the first task with `id` (what `tasks.find` stops at), or `|ts|` if none. */
  function IndexOf(ts: seq<Task>, id: string): (i: nat)
    ensures i <= |ts|
    ensures i < |ts| ==> ts[i].id == id
    ensures forall j :: 0 <= j < i ==> ts[j].id != id
  {
    if ts == [] then 0
    else if ts[0].id == id then 0
    else 1 + IndexOf(ts[1..], id)
  }

  /** The list after `toggleTask(id)`: `done` flipped on the first task with `id`. */
  function Toggled(ts: seq<Task>, id: string): (r: seq<Task>)
    ensures |r| == |ts|
    ensures forall k :: 0 <= k < |r| ==>
      r[k].id == ts[k].id && r[k].name == ts[k].name && r[k].minutes == ts[k].minutes
  {
    if ts == [] then []
    else if ts[0].id == id then [Flip(ts[0])] + ts[1..]
    else [ts[0]] + Toggled(ts[1..], id)
  }

  /** The list after `deleteTask(id)`: `filter(t => t.id !== id)`. */
  function Without(ts: seq<Task>, id: string): (r: seq<Task>)
    ensures |r| <= |ts|
    ensures forall k :: 0 <= k < |r| ==> r[k].id != id
    ensures forall k :: 0 <= k < |r| ==> r[k] in ts
  {
    if ts == [] then []
    else if ts[0].id == id then Without(ts[1..], id)
    else [ts[0]] + Without(ts[1..], id)
  }

  /** Planned minutes: `reduce((sum, t) => sum + t.minutes, 0)` over all tasks. */
  function PlannedMinutes(ts: seq<Task>): int
  {
    if ts == [] then 0 else PlannedMinutes(ts[..|ts| - 1]) + ts[|ts| - 1].minutes
  }

  /** Done minutes: the same fold, counting only tasks with `done` set. */
  function DoneMinutes(ts: seq<Task>): int
  {
    if ts == [] then 0
    else DoneMinutes(ts[..|ts| - 1]) + (if ts[|ts| - 1].done then ts[|ts| - 1].minutes else 0)
  }

  /** Appending a valid task under an unused id keeps the list well formed. */
  lemma AppendWellFormed(ts: seq<Task>, t: Task)
    requires WellFormed(ts) && !HasId(ts, t.id) && ValidTask(t)
    ensures WellFormed(ts + [t])
  {
    var r := ts + [t];
    assert forall k :: 0 <= k < |ts| ==> r[k] == ts[k];
    assert r[|ts|] == t;
  }

  // ---------- toggle ----------

  /** Toggling changes exactly the first task with `id`, and only its `done` field. */
  lemma {:induction false} ToggledAt(ts: seq<Task>, id: string)
    ensures var i := IndexOf(ts, id);
      Toggled(ts, id) == if i < |ts| then ts[i := Flip(ts[i])] else ts
  {
    if ts != [] && ts[0].id != id {
      ToggledAt(ts[1..], id);
      var i := IndexOf(ts[1..], id);
      if i < |ts| - 1 {
        assert [ts[0]] + ts[1..][i := Flip(ts[1..][i])] == ts[i + 1 := Flip(ts[i + 1])];
      } else {
        assert [ts[0]] + ts[1..] == ts;
      }
    }
  }

  /** Toggling an id that no task has leaves the list as it is. */
  lemma ToggleAbsent(ts: seq<Task>, id: string)
    requires !HasId(ts, id)
    ensures Toggled(ts, id) == ts
  {
    ToggledAt(ts, id);
  }

  /** Toggling twice restores the list. */
  lemma {:induction false} ToggleTwice(ts: seq<Task>, id: string)
    ensures Toggled(Toggled(ts, id), id) == ts
  {
    if ts != [] {
      if ts[0].id == id {
        assert Toggled(ts, id)[1..] == ts[1..];
      } else {
        ToggleTwice(ts[1..], id);
        assert Toggled(ts, id)[1..] == Toggled(ts[1..], id);
      }
    }
  }

  lemma ToggledWellFormed(ts: seq<Task>, id: string)
    requires WellFormed(ts)
    ensures WellFormed(Toggled(ts, id))
  {
    ToggledAt(ts, id);
  }

  // ---------- delete ----------

  /** `a` is `b` with some elements left out, the rest in their original order. */
  predicate IsSubsequence(a: seq<Task>, b: seq<Task>)
    decreases |b|
  {
    if a == [] then true
    else if b == [] then false
    else if a[0] == b[0] then IsSubsequence(a[1..], b[1..])
    else IsSubsequence(a, b[1..])
  }

  lemma {:induction false} SubsequenceOfTail(a: seq<Task>, b: seq<Task>)
    requires b != [] && IsSubsequence(a, b[1..])
    ensures IsSubsequence(a, b)
    decreases |b|, |a|
  {
    if a != [] && a[0] == b[0] {
      // the greedy match of a[0] against b[0] leaves a[1..] to match within b[1..]
      SubsequenceOfTailDrop(a, b[1..]);
    }
  }

  lemma {:induction false} SubsequenceOfTailDrop(a: seq<Task>, b: seq<Task>)
    requires a != [] && IsSubsequence(a, b)
    ensures IsSubsequence(a[1..], b)
    decreases |b|, |a|
  {
    if a[0] == b[0] {
      SubsequenceOfTail(a[1..], b);
    } else {
      SubsequenceOfTailDrop(a, b[1..]);
      SubsequenceOfTail(a[1..], b);
    }
  }

  /** Deleting keeps the remaining tasks in their original order. */
  lemma {:induction false} WithoutIsSubsequence(ts: seq<Task>, id: string)
    ensures IsSubsequence(Without(ts, id), ts)
  {
    if ts != [] {
      WithoutIsSubsequence(ts[1..], id);
      if ts[0].id == id {
        SubsequenceOfTail(Without(ts, id), ts);
      } else {
        assert Without(ts, id)[1..] == Without(ts[1..], id);
      }
    }
  }

  /** Deleting removes every task with `id` and keeps every other task, as often as it occurred. */
  lemma {:induction false} WithoutCounts(ts: seq<Task>, id: string, t: Task)
    ensures multiset(Without(ts, id))[t] == if t.id == id then 0 else multiset(ts)[t]
  {
    if ts != [] {
      WithoutCounts(ts[1..], id, t);
      assert ts == [ts[0]] + ts[1..];
      if t.id == id {
        assert t !in Without(ts, id);
      }
    }
  }

  /** Deleting an id that no task has leaves the list as it is. */
  lemma {:induction false} DeleteAbsent(ts: seq<Task>, id: string)
    requires !HasId(ts, id)
    ensures Without(ts, id) == ts
  {
    if ts != [] {
      assert ts[0].id != id;
      assert !HasId(ts[1..], id);
      DeleteAbsent(ts[1..], id);
    }
  }

  lemma UniqueTail(ts: seq<Task>)
    requires ts != [] && UniqueIds(ts)
    ensures UniqueIds(ts[1..]) && !HasId(ts[1..], ts[0].id)
  {
    assert forall k :: 0 <= k < |ts| - 1 ==> ts[1..][k] == ts[k + 1];
  }

  lemma DeleteHead(ts: seq<Task>)
    requires ts != [] && UniqueIds(ts)
    ensures Without(ts, ts[0].id) == ts[1..]
  {
    UniqueTail(ts);
    DeleteAbsent(ts[1..], ts[0].id);
  }

  /** With unique ids, deleting a present id removes exactly the one task at its position. */
  lemma {:induction false} DeleteUnique(ts: seq<Task>, id: string)
    requires UniqueIds(ts) && IndexOf(ts, id) < |ts|
    ensures var i := IndexOf(ts, id); Without(ts, id) == ts[..i] + ts[i + 1..]
  {
    if ts[0].id == id {
      DeleteHead(ts);
    } else {
      UniqueTail(ts);
      var tail := ts[1..];
      var i := IndexOf(tail, id);
      DeleteUnique(tail, id);
      calc {
        Without(ts, id);
        [ts[0]] + Without(tail, id);
        [ts[0]] + (tail[..i] + tail[i + 1..]);
        { assert [ts[0]] + tail[..i] == ts[..i + 1]; assert tail[i + 1..] == ts[i + 2..]; }
        ts[..i + 1] + ts[i + 2..];
      }
    }
  }

  lemma {:induction false} WithoutWellFormed(ts: seq<Task>, id: string)
    requires WellFormed(ts)
    ensures WellFormed(Without(ts, id))
  {
    if ts != [] {
      WithoutWellFormed(ts[1..], id);
      var rest := Without(ts[1..], id);
      if ts[0].id != id {
        forall k | 0 <= k < |rest| ensures rest[k].id != ts[0].id {
          var j :| 0 <= j < |ts[1..]| && ts[1..][j] == rest[k];
          assert ts[j + 1] == rest[k];
        }
        assert Without(ts, id) == [ts[0]] + rest;
      }
    }
  }

  // ---------- minute sums ----------

  lemma {:induction false} PlannedAppend(a: seq<Task>, b: seq<Task>)
    ensures PlannedMinutes(a + b) == PlannedMinutes(a) + PlannedMinutes(b)
    ensures DoneMinutes(a + b) == DoneMinutes(a) + DoneMinutes(b)
    decreases |b|
  {
    if b == [] {
      assert a + b == a;
    } else {
      var b' := b[..|b| - 1];
      PlannedAppend(a, b');
      assert (a + b)[..|a + b| - 1] == a + b';
    }
  }

  /** The sums as seen from the front of the list, which `Toggled` and `Without` recurse on. */
  lemma MinutesCons(t: Task, ts: seq<Task>)
    ensures PlannedMinutes([t] + ts) == t.minutes + PlannedMinutes(ts)
    ensures DoneMinutes([t] + ts) == (if t.done then t.minutes else 0) + DoneMinutes(ts)
  {
    PlannedAppend([t], ts);
  }

  /** With non-negative minutes, 0 <= done <= planned. */
  lemma {:induction false} DoneWithinPlanned(ts: seq<Task>)
    requires forall k :: 0 <= k < |ts| ==> 0 <= ts[k].minutes
    ensures 0 <= DoneMinutes(ts) <= PlannedMinutes(ts)
  {
    if ts != [] {
      DoneWithinPlanned(ts[..|ts| - 1]);
    }
  }

  /** Valid tasks plan between 1 and 240 minutes each; nothing done means no done minutes. */
  lemma {:induction false} MinutesBounds(ts: seq<Task>)
    ensures (forall k :: 0 <= k < |ts| ==> 1 <= ts[k].minutes <= 240) ==>
      |ts| <= PlannedMinutes(ts) <= 240 * |ts|
    ensures (forall k :: 0 <= k < |ts| ==> !ts[k].done) ==> DoneMinutes(ts) == 0
  {
    if ts != [] {
      MinutesBounds(ts[..|ts| - 1]);
    }
  }

  /** Appending a task adds its minutes to planned, and to done only if it is done. */
  lemma AppendMinutes(ts: seq<Task>, t: Task)
    ensures PlannedMinutes(ts + [t]) == PlannedMinutes(ts) + t.minutes
    ensures DoneMinutes(ts + [t]) == DoneMinutes(ts) + (if t.done then t.minutes else 0)
  {
    PlannedAppend(ts, [t]);
  }

  /** Toggling keeps planned and moves the toggled task's minutes into or out of done. */
  lemma {:induction false} ToggledMinutes(ts: seq<Task>, id: string)
    ensures PlannedMinutes(Toggled(ts, id)) == PlannedMinutes(ts)
    ensures var i := IndexOf(ts, id);
      DoneMinutes(Toggled(ts, id)) ==
        DoneMinutes(ts) + (if i == |ts| then 0 else if ts[i].done then -ts[i].minutes else ts[i].minutes)
  {
    if ts != [] {
      assert ts == [ts[0]] + ts[1..];
      MinutesCons(ts[0], ts[1..]);
      if ts[0].id == id {
        MinutesCons(Flip(ts[0]), ts[1..]);
      } else {
        ToggledMinutes(ts[1..], id);
        MinutesCons(ts[0], Toggled(ts[1..], id));
      }
    }
  }

  /** Deleting subtracts the minutes of exactly the removed tasks. */
  lemma DeleteMinutes(ts: seq<Task>, id: string)
    requires UniqueIds(ts) && IndexOf(ts, id) < |ts|
    ensures var t := ts[IndexOf(ts, id)];
      PlannedMinutes(Without(ts, id)) == PlannedMinutes(ts) - t.minutes &&
      DoneMinutes(Without(ts, id)) == DoneMinutes(ts) - (if t.done then t.minutes else 0)
  {
    var i := IndexOf(ts, id);
    var a, t, b := ts[..i], ts[i], ts[i + 1..];
    DeleteUnique(ts, id);
    assert Without(ts, id) == a + b;
    assert ts == (a + [t]) + b;
    PlannedAppend(a + [t], b);
    AppendMinutes(a, t);
    PlannedAppend(a, b);
  }

  /**
   * A fresh day: adding ("Write report", 50) gives planned 50 and done 0;
   * toggling it gives done 50.
   */
  lemma WriteReportScenario(id: string)
    ensures var ts := [] + [Task(id, "Write report", Inputs.TaskMinutes(Wrappers.Some(50)), false)];
      PlannedMinutes(ts) == 50 && DoneMinutes(ts) == 0 &&
      DoneMinutes(Toggled(ts, id)) == 50
  {
  }
}
