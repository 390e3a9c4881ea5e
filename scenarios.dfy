/**
 * Small concrete cases: the two unit-test scenarios of the repository on
 * fresh objects, the scheduler's snapshot, and the plans the planner makes
 * for a few given tasks.
 */
module Scenarios {
  import opened Wrappers
  import opened PawPal
  import opened Ordering
  import opened Planning
  import opened Scheduling

  /** A new task is pending; marking it complete sets its status. */
  method MarkCompleteChangesStatus() returns (before: bool, after: bool)
    ensures !before && after
  {
    var task := new Task("Feed", 10, 5, "Feeding", true, "daily", false, null);
    before := task.completionStatus;
    task.MarkComplete();
    after := task.completionStatus;
  }

  /** Adding a task to a pet with no tasks makes its list one longer. */
  method AddTaskIncreasesCount() returns (before: nat, after: nat)
    ensures after == before + 1
  {
    var pet := new Pet("Buddy", "Dog", 3, [], null, []);
    before := |pet.tasks|;
    var task := new Task("Walk", 30, 5, "Exercise", true, "daily", false, null);
    pet.AddTask(task);
    after := |pet.tasks|;
  }

  /**
   * Sorting a required priority-5 task and optional tasks of priority 3
   * and 4 puts the priority-4 task ahead of the priority-3 one; with 60
   * minutes the plan takes the required task and the priority-4 task, after
   * which the priority-3 task no longer fits.
   */
  lemma ThreeTaskPlan(walk: Task, play: Task, brush: Task)
    requires walk.required && walk.duration == 30 && walk.priority == 5
    requires !play.required && play.duration == 20 && play.priority == 3
    requires !brush.required && brush.duration == 15 && brush.priority == 4
    ensures PlanFor(SortTasks([walk, play, brush]), 60) == Success([walk, brush])
  {
    SortThree(walk, play, brush);
    PlanOfSortedThree(walk, brush, play);
  }

  lemma SortTwo(play: Task, brush: Task)
    requires !play.required && play.priority == 3
    requires !brush.required && brush.priority == 4
    ensures SortTasks([play, brush]) == [brush, play]
  {
    assert [play, brush][1..] == [brush] && [brush][1..] == [];
    assert SortTasks([brush]) == Insert(brush, []) == [brush];
    assert Insert(play, [brush]) == [brush] + Insert(play, []);
  }

  lemma SortThree(walk: Task, play: Task, brush: Task)
    requires walk.required && walk.priority == 5
    requires !play.required && play.priority == 3
    requires !brush.required && brush.priority == 4
    ensures SortTasks([walk, play, brush]) == [walk, brush, play]
  {
    SortTwo(play, brush);
    assert [walk, play, brush][1..] == [play, brush];
    assert Insert(walk, [brush, play]) == [walk, brush, play];
  }

  lemma PlanOfSortedThree(walk: Task, brush: Task, play: Task)
    requires walk.required && walk.duration == 30
    requires !brush.required && brush.duration == 15
    requires !play.required && play.duration == 20
    ensures PlanFor([walk, brush, play], 60) == Success([walk, brush])
  {
    var p := [walk, brush, play];
    assert p[1..] == [brush, play] && p[1..][1..] == [play] && [play][1..] == [];
    assert Requireds([]) == [] && Optionals([]) == [];
    assert Requireds([play]) == Requireds([]) && Optionals([play]) == [play] + Optionals([]);
    assert Requireds([brush, play]) == Requireds([play]);
    assert Optionals([brush, play]) == [brush] + Optionals([play]);
    assert Requireds(p) == [walk] + Requireds([brush, play]);
    assert Optionals(p) == Optionals([brush, play]);
    assert Requireds(p) == [walk] && Optionals(p) == [brush, play];
    assert [walk][1..] == [];
    assert TotalTime([walk]) == 30;
    assert Greedy([play], 45, 60) == [];
    assert Greedy([brush, play], 30, 60) == [brush];
    assert [walk] + [brush] == [walk, brush];
  }

  /** Names differ, so no two of the three tasks are equal. */
  lemma ThreeTaskSummary(walk: Task, play: Task, brush: Task)
    requires walk.name == "Walk" && walk.duration == 30
    requires play.name == "Play" && brush.name == "Brush" && brush.duration == 15
    ensures Summarize([walk, brush], [walk, play, brush]) == PlanSummary(45, 2, ["Walk", "Brush"], ["Play"])
  {
    var plan, tasks := [walk, brush], [walk, play, brush];
    assert plan[1..] == [brush] && [brush][1..] == [];
    assert tasks[1..] == [play, brush] && tasks[1..][1..] == [brush];
    assert TotalTime([brush]) == 15;
    assert Names([brush]) == ["Brush"];
    assert Contains(plan, walk) && Contains(plan, brush);
    assert FirstIndex([brush], play) == 1;
    assert !Contains(plan, play);
    assert Missing([brush], plan) == [];
    assert Missing(tasks[1..], plan) == [play];
    assert Missing(tasks, plan) == [play];
  }

  /** Required tasks of 30 and 40 minutes exceed 60 available minutes, so no plan is made. */
  lemma CapacityPlan(walk: Task, vet: Task)
    requires walk.required && walk.duration == 30 && vet.required && vet.duration == 40
    ensures PlanFor(SortTasks([walk, vet]), 60) == Failure(CapacityExceeded(70, 60))
  {
    assert [walk, vet][1..] == [vet] && [vet][1..] == [];
    assert Requireds([vet]) == [vet];
    assert Requireds([walk, vet]) == [walk, vet];
    assert TotalTime([vet]) == 40;
    RequiredsOfPermutation(SortTasks([walk, vet]), [walk, vet]);
  }

  /**
   * The scheduler keeps the task list it copied when it was created,
   * while `GetAllPetTasks` reads the pets' lists as they are now.
   */
  method SnapshotScenario() returns (snapshot: nat, live: nat)
    ensures snapshot == 0 && live == 1
  {
    var owner := new Owner("Sam", 60);
    var pet := new Pet("Rex", "Dog", 4, [], null, []);
    owner.AddPet(pet);
    var scheduler := new Scheduler(owner);
    var walk := new Task("Walk", 30, 5, "Exercise", true, "daily", false, null);
    pet.AddTask(walk);
    var all := scheduler.GetAllPetTasks();
    snapshot, live := |scheduler.tasks|, |all|;
  }
}
