/**
 * The per-day record `state = {pomodoros, distractions, tasks}` as an
 * object whose fields the task handlers update in place. Saving the record
 * after each change is not modelled.
 */
module Day {
  import opened Wrappers
  import Inputs
  import opened Tasks

  class DayState {
    var pomodoros: int
    var distractions: int
    var tasks: seq<Task>

    /** The record `loadState` builds when today has no stored record. */
    constructor ()
      ensures pomodoros == 0 && distractions == 0 && tasks == []
    {
      pomodoros, distractions, tasks := 0, 0, [];
    }

    /**
     * `addTask`: a blank name is refused and nothing changes; otherwise the
     * trimmed name is appended as a new undone task with the clamped minutes.
     * `freshId` is the value of `uid()`, which is taken to be unused.
     */
    method AddTask(nameField: string, minutesField: Option<int>, freshId: string) returns (added: bool)
      requires !HasId(tasks, freshId)
      modifies this`tasks
      ensures added <==> !Inputs.AllSpace(nameField)
      ensures !added ==> tasks == old(tasks)
      ensures added ==> tasks == old(tasks) + [Task(freshId, Inputs.Trim(nameField), Inputs.TaskMinutes(minutesField), false)]
      ensures WellFormed(old(tasks)) ==> WellFormed(tasks)
    {
      var name := Inputs.Trim(nameField);
      var minutes := Inputs.TaskMinutes(minutesField);
      Inputs.TrimEmptyIff(nameField);
      if name == [] {
        return false;
      }
      var task := Task(freshId, name, minutes, false);
      assert ValidTask(task) by {
        assert !Inputs.IsSpace(name[0]) && !Inputs.IsSpace(name[|name| - 1]);
        assert 1 <= minutes <= 240;
      }
      if WellFormed(tasks) {
        AppendWellFormed(tasks, task);
      }
      tasks := tasks + [task];
      added := true;
    }

    /**
     * `toggleTask`: finds the first task with `id`, as `tasks.find` does,
     * and flips its `done`; without such a task nothing changes.
     */
    method ToggleTask(id: string)
      modifies this`tasks
      ensures tasks == Toggled(old(tasks), id)
      ensures WellFormed(old(tasks)) ==> WellFormed(tasks)
    {
      ToggledAt(tasks, id);
      if WellFormed(tasks) {
        ToggledWellFormed(tasks, id);
      }
      var i := 0;
      while i < |tasks| && tasks[i].id != id
        invariant 0 <= i <= |tasks|
        invariant forall j :: 0 <= j < i ==> tasks[j].id != id
      {
        i := i + 1;
      }
      assert i == IndexOf(tasks, id);
      if i == |tasks| {
        return;
      }
      tasks := tasks[i := Flip(tasks[i])];
    }

    /** `deleteTask`: keeps the tasks whose id differs from `id`. */
    method DeleteTask(id: string)
      modifies this`tasks
      ensures tasks == Without(old(tasks), id)
      ensures WellFormed(old(tasks)) ==> WellFormed(tasks)
    {
      if WellFormed(tasks) {
        WithoutWellFormed(tasks, id);
      }
      tasks := Without(tasks, id);
    }
  }
}
