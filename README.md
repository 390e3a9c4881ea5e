# PawPal+ planner in Dafny

A model of the core of the PawPal+ pet-care planner (`pawpal_system.py`):
owners with a daily time budget, their pets, the care tasks of each pet,
and the scheduler that turns a snapshot of those tasks into a daily plan.

- `wrappers.dfy` (module `Wrappers`): `Result`.
- `pawpal.dfy` (module `PawPal`): the classes `Task`, `Pet` and `Owner`
  with the fields the source updates in place, the task order
  (`Task.Precedes`, the source's `__lt__`), and the list bookkeeping:
  membership and removal of tasks by field equality (`Contains`,
  `WithoutTask`), and of pets and special needs by identity or value
  (`Adjoin`, `RemoveFirst`).
- `ordering.dfy` (module `Ordering`): `prioritize_tasks` as a stable
  insertion sort `SortTasks` by `Precedes`, with its order (`Prioritized`)
  and its stability (`Tier`) proved.
- `planning.dfy` (module `Planning`): the plan as a function of the
  prioritized tasks and the budget (`PlanFor`): a capacity failure, or all
  required tasks followed by the optional tasks chosen first-fit
  (`Greedy`); `calculate_total_time` (`TotalTime`); the summary
  (`Summarize`, `Missing`, `Names`).
- `scheduler.dfy` (module `Scheduling`): the class `Scheduler` with its
  snapshot of the owner's tasks and its stored plan; `GenerateDailyPlan`
  runs the source's loop and is proved equal to `PlanFor`.
- `scenarios.dfy` (module `Scenarios`): the repository's two unit-test
  scenarios on fresh objects, the snapshot behaviour of the scheduler,
  and the plans made for a few concrete tasks.

Errors the source raises as `ValueError` are returned as
`Result.Failure` with an `Error` value. The source uses one exception
type for all of them; the model separates a bad priority
(`InvalidPriority`), too much required time (`CapacityExceeded`) and a task
whose pet the owner does not have (`PetNotOwned`).

Tasks are compared as the source's dataclass compares them, field by
field (`Task.Value`), so `in` and `remove` on task lists find the first
field-equal entry. A listed object is always found (`MemberIsContained`).

## Model

| member | source | states |
|---|---|---|
| PawPal.Task.constructor | pawpal_system.py:190-205 | a new task holds every given field, its completion status and pet included; the given pet is not told about the task |
| PawPal.Task.SetPriority | pawpal_system.py:225-238 | a priority from 1 to 5 is stored; any other value fails with `InvalidPriority` and leaves the priority as it was |
| PawPal.Task.MarkComplete | pawpal_system.py:240-244 | afterwards the task is complete; no other field changes |
| PawPal.Task.MarkIncomplete | pawpal_system.py:246-250 | afterwards the task is not complete; no other field changes |
| PawPal.Task.Precedes | pawpal_system.py:264-279 | `__lt__`: a required task comes before an optional one, and otherwise the higher priority comes first; its order properties are stated by `PrecedesIsStrictWeakOrder` |
| PawPal.Task.Value | pawpal_system.py:190-205 | the dataclass's field tuple, all eight fields in declaration order, which the generated `__eq__` compares; `FirstIndex`, `Contains` and `WithoutTask` test task equality through it |
| PawPal.PrecedesIsStrictWeakOrder | pawpal_system.py:264-279 | the task order is irreflexive, asymmetric and transitive, incomparability is transitive, and two tasks are incomparable exactly when they agree on required and priority |
| PawPal.FirstIndex | pawpal_system.py:131-152 | the index `in`/`remove` act on: the first field-equal entry, or the length when there is none |
| PawPal.Contains | pawpal_system.py:138 | `task in tasks` under dataclass equality; `ContainsMeansEqualEntry` states when it holds and `MemberIsContained` the identity shortcut |
| PawPal.ContainsMeansEqualEntry | pawpal_system.py:131-152 | a task is in a list exactly when some entry equals it field by field |
| PawPal.MemberIsContained | pawpal_system.py:131-152 | a task object that is listed is found by `in` |
| PawPal.WithoutTask | pawpal_system.py:142-152 | `remove` drops exactly the first field-equal entry and keeps the rest in order; a list without such an entry is unchanged |
| PawPal.Adjoin | pawpal_system.py:33-42 | append-unless-present: the element is present afterwards, nothing else is added, a present element changes nothing, and a list without repeats keeps none |
| PawPal.IndexOf | pawpal_system.py:52 | the position of the first occurrence of an element, or the length when it is absent |
| PawPal.RemoveFirst | pawpal_system.py:44-53 | removing a present element drops its first occurrence and keeps the rest in order (one shorter, one fewer of it in the multiset); removing an absent one changes nothing |
| PawPal.DropKeepsDistinct | pawpal_system.py:44-53 | dropping one entry of a list without repeats leaves a list without repeats that lacks that entry |
| PawPal.RemoveFirstKeepsDistinct | pawpal_system.py:44-53 | on a list without repeats, the removed element is gone and there are still no repeats |
| PawPal.Pet.constructor | pawpal_system.py:106-119 | a new pet holds every given field, its special needs, owner and tasks included; the given owner and tasks are not told about the pet |
| PawPal.Pet.AddSpecialNeed | pawpal_system.py:121-129 | the need is appended unless already listed |
| PawPal.Pet.AddTask | pawpal_system.py:131-140 | a task equal to a listed one changes nothing; otherwise it is appended (the list grows by one) and points back at this pet; a list of distinct objects stays so |
| PawPal.Pet.RemoveTask | pawpal_system.py:142-152 | the first equal task is removed; the task's pet is cleared only if one was removed and it is this pet, compared by reference |
| PawPal.AllTasks | pawpal_system.py:80-83 | the tasks of the pets, each pet's list extended in turn; `AllTasksMembers` states both directions of membership, and `Owner.GetAllTasks` runs the loop |
| PawPal.AllTasksMembers | pawpal_system.py:73-83 | every collected task belongs to one of the pets, and every task of every pet is collected |
| PawPal.Owner.constructor | pawpal_system.py:20-31 | a new owner has the given name and budget and no pets |
| PawPal.Owner.AddPet | pawpal_system.py:33-42 | the pet is appended unless listed and then points back at this owner; a listed pet changes nothing; no repeats appear |
| PawPal.Owner.RemovePet | pawpal_system.py:44-53 | a listed pet is removed and its owner cleared; an unlisted one changes nothing; on a list without repeats the pet is gone afterwards |
| PawPal.Owner.GetAllTasks | pawpal_system.py:73-83 | the loop returns the tasks of all pets, pet by pet, each pet's tasks in list order |
| Ordering.Insert | pawpal_system.py:347-354 | inserting adds exactly the one task to the multiset and nothing else |
| Ordering.PrioritizedCons | pawpal_system.py:264-279 | a list headed by a task is prioritized exactly when no later task precedes the head and the rest is prioritized |
| Ordering.InsertKeepsPrioritized | pawpal_system.py:347-354 | inserting into a prioritized list keeps it prioritized |
| Ordering.SortTasks | pawpal_system.py:347-354 | the sorted list is a permutation of the input with required tasks first and priority non-increasing within each group |
| Ordering.TierOfInsert | pawpal_system.py:347-354 | insertion places a task ahead of all tasks with its key and leaves the order of every key group otherwise unchanged |
| Ordering.SortIsStable | pawpal_system.py:347-354 | tasks equal on (required, priority) keep their input order |
| Planning.Requireds | pawpal_system.py:388 | the required tasks, all drawn from the input |
| Planning.Optionals | pawpal_system.py:400 | the optional tasks, all drawn from the input |
| Planning.TotalTime | pawpal_system.py:356-367 | the sum of the durations of the given tasks; `TotalTimeConcat` and `TotalTimeOfPermutation` state how it adds up over joined and reordered lists |
| Planning.TotalTimeConcat | pawpal_system.py:356-367 | the total time of two lists joined is the sum of their totals |
| Planning.TotalTimeOfPermutation | pawpal_system.py:356-367 | reordering a list does not change its total time |
| Planning.RequiredsOfPermutation | pawpal_system.py:387-391 | reordering a list keeps the same required tasks, so the same required time |
| Planning.PrioritizedSplits | pawpal_system.py:388-400 | a prioritized list is its required tasks followed by its optional tasks |
| Planning.Greedy | pawpal_system.py:399-404 | the optional tasks kept are drawn from those offered |
| Planning.GreedySnoc | pawpal_system.py:400-404 | each optional task, in order, is appended exactly when the running total plus its duration is within the budget |
| Planning.GreedyWithinBudget | pawpal_system.py:400-404 | starting within the budget, the kept tasks never take the total past it |
| Planning.GreedySubsequence | pawpal_system.py:400-404 | the kept optional tasks are a subsequence of those offered |
| Planning.PlanFor | pawpal_system.py:382-406 | the plan fails exactly when the required time exceeds the budget, and then reports both amounts |
| Planning.PlanFailsIffRequiredsExceed | pawpal_system.py:387-394 | for any order of the snapshot, planning fails exactly when the required durations sum to more than the budget |
| Planning.PlanWithinBudget | pawpal_system.py:388-404 | a plan's total time is within the budget, it holds exactly the required tasks first in prioritized order, and only optional tasks after them |
| Planning.PlanFollowsPriorityOrder | pawpal_system.py:382-406 | the plan is a subsequence of the prioritized list and is itself prioritized |
| Planning.Names | pawpal_system.py:432 | one name per task, in order |
| Planning.Missing | pawpal_system.py:435 | the tasks no plan entry equals, each one of them, drawn from the tasks in their order |
| Planning.MissingCount | pawpal_system.py:435 | a task no plan entry equals is excluded exactly as often as it occurs among the tasks, any other task never; with `MissingSubsequence` this makes the result exactly the filter |
| Planning.MissingSubsequence | pawpal_system.py:435 | the excluded tasks keep the order of the scheduler's tasks |
| Planning.Summarize | pawpal_system.py:421-442 | the count is the plan length and the included names are the plan's names in order |
| Planning.SummaryOfPlan | pawpal_system.py:421-442 | after planning, the summary's total is within the budget and every excluded task is optional, in task order |
| Planning.RequiredIsPlanned | pawpal_system.py:388-396 | every required task of the snapshot is in a successful plan |
| Scheduling.AppendFitting | pawpal_system.py:396-404 | the optional-task loop returns what `Greedy` keeps, appended to the required tasks |
| Scheduling.Scheduler.constructor | pawpal_system.py:290-301 | the scheduler copies the owner's pets and all their tasks and starts with an empty plan |
| Scheduling.Scheduler.GetAllPetTasks | pawpal_system.py:303-315 | the tasks of the owner's pets as they are now, not the snapshot |
| Scheduling.Scheduler.AddTask | pawpal_system.py:317-333 | a task for a pet the owner lacks fails with `PetNotOwned` and changes nothing; otherwise an unlisted task is appended to the snapshot and to its pet's list without a check there |
| Scheduling.Scheduler.RemoveTask | pawpal_system.py:335-345 | the first equal task leaves the snapshot and, if listed there, its pet's list; the task keeps its pet |
| Scheduling.Scheduler.PrioritizeTasks | pawpal_system.py:347-354 | a permutation of the snapshot, prioritized, with equal-key tasks in snapshot order |
| Scheduling.Scheduler.GenerateDailyPlan | pawpal_system.py:369-406 | the result is the plan of the prioritized snapshot for the owner's budget; on failure the stored plan is empty, on success it is the returned plan |
| Scheduling.Scheduler.OptimizeSchedule | pawpal_system.py:408-419 | the same as `GenerateDailyPlan` |
| Scheduling.Scheduler.GetPlanSummary | pawpal_system.py:421-442 | total time and size of the stored plan, its names in order, and the names of snapshot tasks no plan entry equals, in snapshot order |
| Scenarios.MarkCompleteChangesStatus | tests/test_pawpal.py:11-22 | a new task is pending and complete after `MarkComplete` |
| Scenarios.AddTaskIncreasesCount | tests/test_pawpal.py:25-42 | adding a task to a new pet makes its task count one larger |
| Scenarios.SnapshotScenario | pawpal_system.py:299-315 | a task added after the scheduler was made is seen by `GetAllPetTasks` but not in the snapshot |
| Scenarios.ThreeTaskPlan | pawpal_system.py:369-406 | with 60 minutes, required 30 minutes and optional 20 (priority 3) and 15 (priority 4): the plan is the required task and the 15-minute task |
| Scenarios.ThreeTaskSummary | pawpal_system.py:421-442 | the summary of that plan: 45 minutes, two tasks, the 20-minute task excluded |
| Scenarios.CapacityPlan | pawpal_system.py:387-394 | required tasks of 30 and 40 minutes with 60 available fail with both amounts |

## Left out

- `app.py` (a Streamlit user interface) and `main.py` (a demonstration script that prints): input and output only. `main.py` also passes a `time` argument and calls time sorting, conflict detection and recurrence that `pawpal_system.py` does not define; the model follows `pawpal_system.py`.
- Time-of-day fields, sorting by time, conflict detection and recurring tasks: they do not exist in `pawpal_system.py`, so there is nothing to model.
- The `__str__` methods: text rendering only.
- `Owner.preferences` and `update_preferences`: a dictionary the planner never reads.
- The getters (`get_available_time`, `get_pets`, `get_tasks`, `get_care_requirements`, `is_required`, `get_priority`): field reads and copies; the model reads the fields directly.
- `calculate_total_time` without an argument sums the stored plan; the model writes that case as `TotalTime(dailyPlan)` where it is used.
- Python's Timsort: the model sorts by insertion and proves the properties any stable sort by `__lt__` has (a permutation, ordered, equal keys in input order), which determine the result.
- PawPal.Task.Value: compares a task's pet by reference, while the dataclass compares pets field by field; two distinct but field-equal pets therefore make tasks unequal in the model. The source's comparison need not even end: two distinct pets with equal name, species, age, special needs and owner, each holding one task that equals the other's except for `pet`, send `Task.__eq__` through `Pet.__eq__` and the `tasks` lists back into `Task.__eq__` without end, so `in` (pawpal_system.py:138, 435) raises `RecursionError` where the model gives an answer.
- PawPal.Owner.AddPet: finds a pet by reference, while the source's dataclass `in` would also match a distinct pet with equal fields.
- PawPal.Owner.RemovePet: finds a pet by reference for the same reason.
- PawPal.Pet.RemoveTask: tests whether the removed task's pet is this pet by reference, while the source's `task.pet == self` compares the dataclass fields; a distinct pet with equal fields would also have its task's pet cleared in the source.
- Scheduling.Scheduler.AddTask: checks the task's pet against the owner's pets by reference for the same reason.
- Scheduling.Scheduler.GenerateDailyPlan: builds the plan in a local list and stores it once, where the source extends and appends to the stored list in place. The source also returns that stored list object itself, so a caller that later changes the returned list changes what `get_plan_summary` reports; the model returns a value and does not capture this aliasing. Its contract states the plan in terms of the state at the call; the stored plan is the only field it changes.
- The scenarios that drive the whole scheduler on freshly built objects are stated on values (`ThreeTaskPlan`, `ThreeTaskSummary`, `CapacityPlan`) rather than as methods over a full object graph.
- Integer widths: Python integers are unbounded, as are Dafny's, so there is no overflow to model.
