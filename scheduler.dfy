/**
 * The scheduler: a snapshot of an owner's pets and tasks taken when it is
 * created, and the daily plan it computes from that snapshot.
 */
module Scheduling {
  import opened Wrappers
  import opened PawPal
  import opened Ordering
  import opened Planning

  /**
   * The optional-task loop of `GenerateDailyPlan`: walks `optionals` in
   * order, appending each task whose duration still fits the budget and
   * adding it to the running total, which starts at `used`.
   */
  method AppendFitting(plan: seq<Task>, optionals: seq<Task>, used: int, budget: int) returns (r: seq<Task>)
    ensures r == plan + Greedy(optionals, used, budget)
  {
    r := plan;
    var totalTime := used;
    assert optionals[0..] == optionals;
    for i := 0 to |optionals|
      invariant r + Greedy(optionals[i..], totalTime, budget) == plan + Greedy(optionals, used, budget)
    {
      var task := optionals[i];
      assert optionals[i..][0] == task && optionals[i..][1..] == optionals[i + 1..];
      if totalTime + task.duration <= budget {
        r := r + [task];
        totalTime := totalTime + task.duration;
      }
    }
    assert optionals[|optionals|..] == [];
  }

  class Scheduler {
    var owner: Owner
    var pets: seq<Pet>
    var tasks: seq<Task>
    var dailyPlan: seq<Task>

    /** Copies the owner's pets and all their tasks; later changes to the owner's lists are not seen. */
    constructor (owner: Owner)
      ensures this.owner == owner && pets == owner.pets
      ensures tasks == AllTasks(owner.pets) && dailyPlan == []
    {
      var all := owner.GetAllTasks();
      this.owner := owner;
      pets := owner.pets;
      tasks := all;
      dailyPlan := [];
    }

    /** The tasks of the owner's pets as they are now, not as in the snapshot. */
    method GetAllPetTasks() returns (all: seq<Task>)
      ensures all == AllTasks(owner.pets)
    {
      all := owner.GetAllTasks();
    }

    /**
     * Refuses a task whose pet the owner does not have. Otherwise appends
     * the task to the snapshot unless an equal task is there, and then
     * appends it to its pet's list as well, without checking that list.
     */
    method AddTask(task: Task) returns (r: Result<(), Error>)
      modifies this`tasks, task.pet
      ensures task.pet == old(task.pet)
      ensures var p := task.pet;
              p != null && p !in owner.pets ==>
                r == Failure(PetNotOwned(p.name)) && tasks == old(tasks) && unchanged(p)
      ensures var p := task.pet;
              p == null || p in owner.pets ==>
                r == Success(())
                && tasks == (if old(Contains(tasks, task)) then old(tasks) else old(tasks) + [task])
                && (p != null ==>
                      p.tasks == (if old(Contains(tasks, task)) then old(p.tasks) else old(p.tasks) + [task])
                      && unchanged(p`name, p`species, p`age, p`specialNeeds, p`owner))
    {
      var p := task.pet;
      if p != null && p !in owner.pets {
        return Failure(PetNotOwned(p.name));
      }
      if !Contains(tasks, task) {
        tasks := tasks + [task];
        if p != null {
          p.tasks := p.tasks + [task];
        }
      }
      r := Success(());
    }

    /**
     * Removes the first task equal to `task` from the snapshot and, if one
     * was removed, from its pet's list too. The task keeps its pet.
     */
    method RemoveTask(task: Task)
      modifies this`tasks, task.pet
      ensures task.pet == old(task.pet)
      ensures tasks == old(WithoutTask(tasks, task))
      ensures var p := task.pet;
              p != null ==>
                p.tasks == (if old(Contains(tasks, task)) && old(Contains(p.tasks, task))
                            then old(WithoutTask(p.tasks, task)) else old(p.tasks))
                && unchanged(p`name, p`species, p`age, p`specialNeeds, p`owner)
    {
      if Contains(tasks, task) {
        tasks := WithoutTask(tasks, task);
        var p := task.pet;
        if p != null && Contains(p.tasks, task) {
          p.tasks := WithoutTask(p.tasks, task);
        }
      }
    }

    /** The snapshot, stably sorted: required first, then by priority, ties in snapshot order. */
    function PrioritizeTasks(): (r: seq<Task>)
      reads this`tasks, tasks
      ensures multiset(r) == multiset(tasks)
      ensures Prioritized(r)
      ensures forall required, priority :: Tier(r, required, priority) == Tier(tasks, required, priority)
    {
      assert forall required, priority :: Tier(SortTasks(tasks), required, priority) == Tier(tasks, required, priority) by {
        forall required, priority ensures Tier(SortTasks(tasks), required, priority) == Tier(tasks, required, priority) {
          SortIsStable(tasks, required, priority);
        }
      }
      SortTasks(tasks)
    }

    /**
     * Clears the plan, then fails if the required tasks of the snapshot
     * exceed the owner's current budget; otherwise stores and returns all
     * required tasks followed by the optional ones that fit, first-fit in
     * prioritized order.
     */
    method GenerateDailyPlan() returns (r: Result<seq<Task>, Error>)
      modifies this`dailyPlan
      ensures r == old(PlanFor(PrioritizeTasks(), owner.availableMinutes))
      ensures r.Failure? ==> dailyPlan == []
      ensures r.Success? ==> dailyPlan == r.value
    {
      var prioritized := PrioritizeTasks();
      var available := owner.availableMinutes;
      var requiredTasks := Requireds(prioritized);
      var requiredTime := TotalTime(requiredTasks);
      if requiredTime > available {
        r := Failure(CapacityExceeded(requiredTime, available));
        dailyPlan := [];
      } else {
        var plan := AppendFitting(requiredTasks, Optionals(prioritized), requiredTime, available);
        r := Success(plan);
        dailyPlan := plan;
      }
    }

    /** Another name for `GenerateDailyPlan`. */
    method OptimizeSchedule() returns (r: Result<seq<Task>, Error>)
      modifies this`dailyPlan
      ensures r == old(PlanFor(PrioritizeTasks(), owner.availableMinutes))
      ensures r.Failure? ==> dailyPlan == []
      ensures r.Success? ==> dailyPlan == r.value
    {
      r := GenerateDailyPlan();
    }

    /**
     * The stored plan's total minutes, its size, its task names in plan
     * order, and the names of the snapshot's tasks that no plan entry
     * equals, in snapshot order.
     */
    function GetPlanSummary(): (s: PlanSummary)
      reads this`dailyPlan, this`tasks, dailyPlan, tasks
      ensures s.totalTime == TotalTime(dailyPlan)
      ensures s.taskCount == |dailyPlan| == |s.tasksIncluded|
      ensures forall k :: 0 <= k < |dailyPlan| ==> s.tasksIncluded[k] == dailyPlan[k].name
      ensures s.tasksExcluded == Names(Missing(tasks, dailyPlan))
    {
      Summarize(dailyPlan, tasks)
    }
  }
}
