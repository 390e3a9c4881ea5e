/**
 * The entities of the pet-care planner: tasks, pets and owners, and the
 * list bookkeeping that ties them together.
 *
 * Back-references (a task's pet, a pet's owner) are nullable references.
 * Tasks are compared as the source's dataclass compares them: field by
 * field (see `Task.Value`). Pets are compared by reference.
 */
module PawPal {
  import opened Wrappers

  /** The failures of the planner. The source raises ValueError for all three. */
  datatype Error =
    | InvalidPriority(value: int)
    | CapacityExceeded(requiredTime: int, availableTime: int)
    | PetNotOwned(petName: string)

  /** The fields a task is compared on, in declaration order. */
  datatype TaskValue = TaskValue(
    name: string, duration: int, priority: int, category: string,
    required: bool, frequency: string, completionStatus: bool, pet: Pet?)

  class Task {
    var name: string
    var duration: int
    var priority: int
    var category: string
    var required: bool
    var frequency: string
    var completionStatus: bool
    var pet: Pet?

    /**
     * The generated constructor: it stores every field as given and
     * validates nothing. A given pet is not told about the task.
     */
    constructor (name: string, duration: int, priority: int, category: string,
                 required: bool, frequency: string, completionStatus: bool, pet: Pet?)
      ensures this.name == name && this.duration == duration
      ensures this.priority == priority && this.category == category
      ensures this.required == required && this.frequency == frequency
      ensures this.completionStatus == completionStatus && this.pet == pet
    {
      this.name, this.duration, this.priority := name, duration, priority;
      this.category, this.required, this.frequency := category, required, frequency;
      this.completionStatus, this.pet := completionStatus, pet;
    }

    function Value(): (r: TaskValue)
      reads this
    {
      TaskValue(name, duration, priority, category, required, frequency, completionStatus, pet)
    }

    /**
     * The sort order of tasks: required before optional, then higher
     * priority first. It is the strict order on the key
     * (not required, -priority), compared lexicographically.
     */
    predicate Precedes(other: Task)
      reads this, other
    {
      if required != other.required then required else priority > other.priority
    }

    /** Stores `value` when it is a valid priority; otherwise fails and keeps the old one. */
    method SetPriority(value: int) returns (r: Result<(), Error>)
      modifies this`priority
      ensures 1 <= value <= 5 ==> r == Success(()) && priority == value
      ensures !(1 <= value <= 5) ==> r == Failure(InvalidPriority(value)) && priority == old(priority)
    {
      if 1 <= value <= 5 {
        priority := value;
        r := Success(());
      } else {
        r := Failure(InvalidPriority(value));
      }
    }

    method MarkComplete()
      modifies this`completionStatus
      ensures completionStatus
    {
      completionStatus := true;
    }

    method MarkIncomplete()
      modifies this`completionStatus
      ensures !completionStatus
    {
      completionStatus := false;
    }
  }

  /** The key order behind `Precedes`: a strict weak order, so a stable sort by it is well defined. */
  lemma PrecedesIsStrictWeakOrder(a: Task, b: Task, c: Task)
    ensures !a.Precedes(a)
    ensures a.Precedes(b) ==> !b.Precedes(a)
    ensures a.Precedes(b) && b.Precedes(c) ==> a.Precedes(c)
    ensures !a.Precedes(b) && !b.Precedes(a) && !b.Precedes(c) && !c.Precedes(b)
            ==> !a.Precedes(c) && !c.Precedes(a)
    ensures !a.Precedes(b) && !b.Precedes(a) <==> a.required == b.required && a.priority == b.priority
  {
  }

  // ---------------------------------------------------------------------
  // Lists compared by value (`x in xs`, `xs.remove(x)` on the dataclass)
  // ---------------------------------------------------------------------

  /** The index `list.index` would find: the first entry equal to `t`, or |s| if none. */
  function FirstIndex(s: seq<Task>, t: Task): (i: nat)
    reads s, t
    ensures i <= |s|
    ensures i < |s| ==> s[i].Value() == t.Value()
    ensures forall j :: 0 <= j < i ==> s[j].Value() != t.Value()
  {
    if s == [] then 0
    else if s[0].Value() == t.Value() then 0
    else 1 + FirstIndex(s[1..], t)
  }

  /** `t in s` for tasks. */
  predicate Contains(s: seq<Task>, t: Task)
    reads s, t
  {
    FirstIndex(s, t) < |s|
  }

  lemma ContainsMeansEqualEntry(s: seq<Task>, t: Task)
    ensures Contains(s, t) <==> exists i :: 0 <= i < |s| && s[i].Value() == t.Value()
  {
  }

  /** The identity test that precedes `==` in `in`: a listed object is contained. */
  lemma MemberIsContained(s: seq<Task>, t: Task)
    requires t in s
    ensures Contains(s, t)
  {
    var i :| 0 <= i < |s| && s[i] == t;
    assert FirstIndex(s, t) <= i;
  }

  /** `s.remove(t)` for tasks, when `t in s`; `s` itself otherwise. */
  function WithoutTask(s: seq<Task>, t: Task): (r: seq<Task>)
    reads s, t
    ensures Contains(s, t) ==> |r| == |s| - 1 && r == s[..FirstIndex(s, t)] + s[FirstIndex(s, t) + 1..]
    ensures !Contains(s, t) ==> r == s
    ensures multiset(r) <= multiset(s)
  {
    var i := FirstIndex(s, t);
    if i < |s| then
      assert s == s[..i] + [s[i]] + s[i + 1..];
      s[..i] + s[i + 1..]
    else s
  }

  /** The entries of `s` that are one object listed twice. */
  predicate DistinctObjects<T(==)>(s: seq<T>)
  {
    forall i, j :: 0 <= i < j < |s| ==> s[i] != s[j]
  }

  /** `if x not in s: s.append(x)` on a list compared by identity. */
  function Adjoin<T(==)>(s: seq<T>, x: T): (r: seq<T>)
    ensures x in r
    ensures forall y :: y in s ==> y in r
    ensures forall i :: 0 <= i < |r| ==> r[i] in s || r[i] == x
    ensures x in s ==> r == s
    ensures x !in s ==> |r| == |s| + 1 && r[..|s|] == s
    ensures DistinctObjects(s) ==> DistinctObjects(r)
  {
    if x in s then s else s + [x]
  }

  /** `s.index(x)` on a list compared by identity: the first position of `x`, or |s| if none. */
  function IndexOf<T(==)>(s: seq<T>, x: T): (i: nat)
    ensures i <= |s|
    ensures i < |s| <==> x in s
    ensures i < |s| ==> s[i] == x
    ensures forall j :: 0 <= j < i ==> s[j] != x
  {
    if s == [] then 0
    else if s[0] == x then 0
    else 1 + IndexOf(s[1..], x)
  }

  /** `s.remove(x)` when `x in s`, on a list compared by identity; `s` otherwise. */
  function RemoveFirst<T(==)>(s: seq<T>, x: T): (r: seq<T>)
    ensures x in s ==> exists i :: 0 <= i < |s| && s[i] == x && x !in s[..i] && r == s[..i] + s[i + 1..]
    ensures x in s ==> |r| == |s| - 1 && multiset(r) == multiset(s) - multiset{x}
    ensures x !in s ==> r == s
  {
    var i := IndexOf(s, x);
    if i < |s| then
      assert s == s[..i] + [s[i]] + s[i + 1..];
      assert x !in s[..i];
      s[..i] + s[i + 1..]
    else s
  }

  /** On a list without repeats, removing `x` leaves no `x` behind and still no repeats. */
  lemma RemoveFirstKeepsDistinct<T>(s: seq<T>, x: T)
    requires DistinctObjects(s)
    ensures x !in RemoveFirst(s, x)
    ensures DistinctObjects(RemoveFirst(s, x))
  {
    if x in s {
      var i := IndexOf(s, x);
      DropKeepsDistinct(s, i);
    }
  }

  lemma DropKeepsDistinct<T>(s: seq<T>, i: nat)
    requires DistinctObjects(s) && i < |s|
    ensures s[i] !in s[..i] + s[i + 1..]
    ensures DistinctObjects(s[..i] + s[i + 1..])
  {
    var r := s[..i] + s[i + 1..];
    forall k | 0 <= k < |r| ensures r[k] != s[i] {
      if k < i {
        assert r[k] == s[k];
      } else {
        assert r[k] == s[k + 1];
      }
    }
    forall a, b | 0 <= a < b < |r| ensures r[a] != r[b] {
      var a' := if a < i then a else a + 1;
      var b' := if b < i then b else b + 1;
      assert r[a] == s[a'] && r[b] == s[b'];
    }
  }

  class Pet {
    var name: string
    var species: string
    var age: int
    var specialNeeds: seq<string>
    var owner: Owner?
    var tasks: seq<Task>

    /**
     * The generated constructor: it stores every field as given. A given
     * owner is not told about the pet, nor the given tasks about it.
     */
    constructor (name: string, species: string, age: int,
                 specialNeeds: seq<string>, owner: Owner?, tasks: seq<Task>)
      ensures this.name == name && this.species == species && this.age == age
      ensures this.specialNeeds == specialNeeds && this.owner == owner && this.tasks == tasks
    {
      this.name, this.species, this.age := name, species, age;
      this.specialNeeds, this.owner, this.tasks := specialNeeds, owner, tasks;
    }

    method AddSpecialNeed(need: string)
      modifies this`specialNeeds
      ensures specialNeeds == Adjoin(old(specialNeeds), need)
    {
      if need !in specialNeeds {
        specialNeeds := specialNeeds + [need];
      }
    }

    /**
     * Appends `task` unless an equal task is listed, and then points the
     * task back at this pet. The membership test sees the task's pet
     * field as it was before the call.
     */
    method AddTask(task: Task)
      modifies this`tasks, task`pet
      ensures old(Contains(tasks, task)) ==> tasks == old(tasks) && task.pet == old(task.pet)
      ensures !old(Contains(tasks, task)) ==> tasks == old(tasks) + [task] && task.pet == this
      ensures old(DistinctObjects(tasks)) ==> DistinctObjects(tasks)
    {
      if !Contains(tasks, task) {
        assert task !in tasks;
        tasks := tasks + [task];
        task.pet := this;
      }
    }

    /**
     * Removes the first task equal to `task`; if one was removed and
     * `task` points at this pet, clears that back-reference.
     */
    method RemoveTask(task: Task)
      modifies this`tasks, task`pet
      ensures tasks == old(WithoutTask(tasks, task))
      ensures task.pet == if old(Contains(tasks, task)) && old(task.pet) == this then null else old(task.pet)
    {
      if Contains(tasks, task) {
        tasks := WithoutTask(tasks, task);
        if task.pet == this {
          task.pet := null;
        }
      }
    }
  }

  /** `all_tasks.extend(pet.tasks)` for each pet in turn. */
  function AllTasks(pets: seq<Pet>): (r: seq<Task>)
    reads pets
  {
    if pets == [] then [] else AllTasks(pets[..|pets| - 1]) + pets[|pets| - 1].tasks
  }

  /** Every collected task belongs to one of the pets, and every task of every pet is collected. */
  lemma {:induction false} AllTasksMembers(pets: seq<Pet>)
    ensures forall i :: 0 <= i < |AllTasks(pets)| ==> exists p :: p in pets && AllTasks(pets)[i] in p.tasks
    ensures forall p, t :: p in pets && t in p.tasks ==> t in AllTasks(pets)
  {
    if pets != [] {
      var init, last := pets[..|pets| - 1], pets[|pets| - 1];
      AllTasksMembers(init);
      assert pets == init + [last];
      assert AllTasks(pets) == AllTasks(init) + last.tasks;
    } else {
      assert AllTasks(pets) == [];
    }
  }

  class Owner {
    var name: string
    var availableMinutes: int
    var pets: seq<Pet>

    constructor (name: string, availableMinutes: int)
      ensures this.name == name && this.availableMinutes == availableMinutes && pets == []
    {
      this.name, this.availableMinutes, pets := name, availableMinutes, [];
    }

    /** Appends `pet` unless it is listed, and then points it back at this owner. */
    method AddPet(pet: Pet)
      modifies this`pets, pet`owner
      ensures pets == Adjoin(old(pets), pet)
      ensures old(DistinctObjects(pets)) ==> DistinctObjects(pets)
      ensures pet.owner == if pet in old(pets) then old(pet.owner) else this
    {
      if pet !in pets {
        pets := pets + [pet];
        pet.owner := this;
      }
    }

    /** Removes `pet` if it is listed, and then clears its back-reference. */
    method RemovePet(pet: Pet)
      modifies this`pets, pet`owner
      ensures pets == RemoveFirst(old(pets), pet)
      ensures pet.owner == if pet in old(pets) then null else old(pet.owner)
      ensures old(DistinctObjects(pets)) ==> pet !in pets && DistinctObjects(pets)
    {
      if DistinctObjects(pets) {
        RemoveFirstKeepsDistinct(pets, pet);
      }
      if pet in pets {
        pets := RemoveFirst(pets, pet);
        pet.owner := null;
      }
    }

    /** The tasks of all pets, pet by pet, in list order. */
    method GetAllTasks() returns (all: seq<Task>)
      ensures all == AllTasks(pets)
    {
      all := [];
      for i := 0 to |pets|
        invariant all == AllTasks(pets[..i])
      {
        assert pets[..i + 1][..i] == pets[..i];
        all := all + pets[i].tasks;
      }
      assert pets[..|pets|] == pets;
    }
  }
}
