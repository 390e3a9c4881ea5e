/**
 * Prioritising tasks: a stable sort by `Task.Precedes`, the order the
 * source's `sorted` produces from `Task.__lt__`.
 */
module Ordering {
  import opened PawPal

  /** Required tasks come first; within each group priority does not increase. */
  predicate Prioritized(s: seq<Task>)
    reads s
  {
    forall i, j :: 0 <= i < j < |s| ==>
      (s[j].required ==> s[i].required) &&
      (s[i].required == s[j].required ==> s[i].priority >= s[j].priority)
  }

  /** The tasks of `s` that share one key (required, priority), in their order in `s`. */
  function Tier(s: seq<Task>, required: bool, priority: int): (r: seq<Task>)
    reads s
    ensures forall i :: 0 <= i < |r| ==> r[i].required == required && r[i].priority == priority
  {
    if s == [] then []
    else if s[0].required == required && s[0].priority == priority then [s[0]] + Tier(s[1..], required, priority)
    else Tier(s[1..], required, priority)
  }

  /** Places `x` in front of the first task of `s` it does not come after. */
  function Insert(x: Task, s: seq<Task>): (r: seq<Task>)
    reads x, s
    ensures multiset(r) == multiset(s) + multiset{x}
    ensures forall k :: 0 <= k < |r| ==> r[k] in s || r[k] == x
  {
    if s == [] || !s[0].Precedes(x) then
      [x] + s
    else
      assert s == [s[0]] + s[1..];
      [s[0]] + Insert(x, s[1..])
  }

  /** `a` may stand before every task of `s`. */
  predicate Leads(a: Task, s: seq<Task>)
    reads a, s
  {
    forall k :: 0 <= k < |s| ==> !s[k].Precedes(a)
  }

  lemma PrioritizedCons(a: Task, s: seq<Task>)
    ensures Prioritized([a] + s) <==> Leads(a, s) && Prioritized(s)
  {
    var r := [a] + s;
    if Leads(a, s) && Prioritized(s) {
      forall i, j | 0 <= i < j < |r|
        ensures (r[j].required ==> r[i].required) && (r[i].required == r[j].required ==> r[i].priority >= r[j].priority)
      {
        assert r[j] == s[j - 1];
        if i > 0 { assert r[i] == s[i - 1]; }
      }
    }
    if Prioritized(r) {
      forall i, j | 0 <= i < j < |s|
        ensures (s[j].required ==> s[i].required) && (s[i].required == s[j].required ==> s[i].priority >= s[j].priority)
      {
        assert s[i] == r[i + 1] && s[j] == r[j + 1];
      }
      forall k | 0 <= k < |s| ensures !s[k].Precedes(a) {
        assert r[0] == a && s[k] == r[k + 1];
        assert r[k + 1].required ==> r[0].required;
      }
    }
  }

  lemma {:induction false} InsertKeepsPrioritized(x: Task, s: seq<Task>)
    requires Prioritized(s)
    ensures Prioritized(Insert(x, s))
  {
    if s == [] || !s[0].Precedes(x) {
      if s != [] {
        PrioritizedCons(s[0], s[1..]);
        assert s == [s[0]] + s[1..];
      }
      assert Leads(x, s);
      PrioritizedCons(x, s);
    } else {
      var rest := Insert(x, s[1..]);
      PrioritizedCons(s[0], s[1..]);
      assert s == [s[0]] + s[1..];
      InsertKeepsPrioritized(x, s[1..]);
      forall k | 0 <= k < |rest| ensures !rest[k].Precedes(s[0]) {
        assert rest[k] in multiset(rest);
        if rest[k] != x {
          assert rest[k] in multiset(s[1..]);
          var m :| 0 <= m < |s[1..]| && s[1..][m] == rest[k];
        }
      }
      PrioritizedCons(s[0], rest);
    }
  }

  /**
   * `sorted(tasks)` with `Task.__lt__`: insertion of each task, last to
   * first, into the sorted rest. A task goes before every task of equal
   * key already placed, all of which followed it in the input.
   */
  function SortTasks(s: seq<Task>): (r: seq<Task>)
    reads s
    ensures multiset(r) == multiset(s)
    ensures forall k :: 0 <= k < |r| ==> r[k] in s
    ensures Prioritized(r)
  {
    if s == [] then []
    else
      var rest := SortTasks(s[1..]);
      assert s == [s[0]] + s[1..];
      InsertKeepsPrioritized(s[0], rest);
      Insert(s[0], rest)
  }

  lemma {:induction false} TierOfInsert(x: Task, s: seq<Task>, required: bool, priority: int)
    ensures Tier(Insert(x, s), required, priority)
         == (if x.required == required && x.priority == priority then [x] else []) + Tier(s, required, priority)
  {
    if s == [] || !s[0].Precedes(x) {
      assert Insert(x, s) == [x] + s;
      assert ([x] + s)[1..] == s;
    } else {
      TierOfInsert(x, s[1..], required, priority);
      assert ([s[0]] + Insert(x, s[1..]))[1..] == Insert(x, s[1..]);
      assert Tier(s, required, priority)
          == (if s[0].required == required && s[0].priority == priority then [s[0]] else []) + Tier(s[1..], required, priority);
    }
  }

  /** Stability: tasks with equal (required, priority) keep their relative input order. */
  lemma {:induction false} SortIsStable(s: seq<Task>, required: bool, priority: int)
    ensures Tier(SortTasks(s), required, priority) == Tier(s, required, priority)
  {
    if s != [] {
      SortIsStable(s[1..], required, priority);
      TierOfInsert(s[0], SortTasks(s[1..]), required, priority);
    }
  }
}
