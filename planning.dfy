/**
 * The daily plan: all required tasks when their total time fits the
 * owner's budget, then optional tasks first-fit in priority order.
 */
module Planning {
  import opened Wrappers
  import opened PawPal
  import opened Ordering

  // ---------------------------------------------------------------------
  // Subsequences
  // ---------------------------------------------------------------------

  /** `a` is `b` with some entries left out and the rest kept in order. */
  predicate SubsequenceOf<T(==)>(a: seq<T>, b: seq<T>)
    decreases |b|
  {
    if b == [] then a == []
    else (a != [] && a[0] == b[0] && SubsequenceOf(a[1..], b[1..])) || SubsequenceOf(a, b[1..])
  }

  lemma {:induction false} SubsequenceMembers<T>(a: seq<T>, b: seq<T>)
    requires SubsequenceOf(a, b)
    ensures forall k :: 0 <= k < |a| ==> a[k] in b
  {
    if b != [] {
      if a != [] && a[0] == b[0] && SubsequenceOf(a[1..], b[1..]) {
        SubsequenceMembers(a[1..], b[1..]);
        forall k | 1 <= k < |a| ensures a[k] in b {
          assert a[k] == a[1..][k - 1];
        }
      } else {
        SubsequenceMembers(a, b[1..]);
      }
    }
  }

  lemma {:induction false} SubsequenceConcat<T>(a1: seq<T>, b1: seq<T>, a2: seq<T>, b2: seq<T>)
    requires SubsequenceOf(a1, b1) && SubsequenceOf(a2, b2)
    ensures SubsequenceOf(a1 + a2, b1 + b2)
  {
    if b1 == [] {
      assert a1 + a2 == a2 && b1 + b2 == b2;
    } else if a1 != [] && a1[0] == b1[0] && SubsequenceOf(a1[1..], b1[1..]) {
      SubsequenceConcat(a1[1..], b1[1..], a2, b2);
      assert (a1 + a2)[1..] == a1[1..] + a2;
      assert (b1 + b2)[1..] == b1[1..] + b2;
    } else {
      SubsequenceConcat(a1, b1[1..], a2, b2);
      assert (b1 + b2)[1..] == b1[1..] + b2;
    }
  }

  lemma {:induction false} SubsequenceReflexive<T>(s: seq<T>)
    ensures SubsequenceOf(s, s)
  {
    if s != [] {
      SubsequenceReflexive(s[1..]);
    }
  }

  /** Leaving tasks out of a prioritized list leaves it prioritized. */
  lemma {:induction false} SubsequenceKeepsPrioritized(a: seq<Task>, b: seq<Task>)
    requires SubsequenceOf(a, b) && Prioritized(b)
    ensures Prioritized(a)
  {
    if b != [] {
      assert b == [b[0]] + b[1..];
      PrioritizedCons(b[0], b[1..]);
      if a != [] && a[0] == b[0] && SubsequenceOf(a[1..], b[1..]) {
        SubsequenceKeepsPrioritized(a[1..], b[1..]);
        SubsequenceMembers(a[1..], b[1..]);
        forall k | 0 <= k < |a[1..]| ensures !a[1..][k].Precedes(a[0]) {
          var m :| 0 <= m < |b[1..]| && b[1..][m] == a[1..][k];
        }
        PrioritizedCons(a[0], a[1..]);
        assert a == [a[0]] + a[1..];
      } else {
        SubsequenceKeepsPrioritized(a, b[1..]);
      }
    }
  }

  // ---------------------------------------------------------------------
  // Filters and totals
  // ---------------------------------------------------------------------

  /** `[t for t in s if t.required]` */
  function Requireds(s: seq<Task>): (r: seq<Task>)
    reads s
    ensures forall k :: 0 <= k < |r| ==> r[k].required && r[k] in s
  {
    if s == [] then []
    else if s[0].required then [s[0]] + Requireds(s[1..])
    else Requireds(s[1..])
  }

  /** `[t for t in s if not t.required]` */
  function Optionals(s: seq<Task>): (r: seq<Task>)
    reads s
    ensures forall k :: 0 <= k < |r| ==> !r[k].required && r[k] in s
  {
    if s == [] then []
    else if !s[0].required then [s[0]] + Optionals(s[1..])
    else Optionals(s[1..])
  }

  /** `sum(task.duration for task in s)` */
  function TotalTime(s: seq<Task>): (r: int)
    reads s
  {
    if s == [] then 0 else s[0].duration + TotalTime(s[1..])
  }

  lemma {:induction false} TotalTimeConcat(a: seq<Task>, b: seq<Task>)
    ensures TotalTime(a + b) == TotalTime(a) + TotalTime(b)
  {
    if a != [] {
      TotalTimeConcat(a[1..], b);
      assert (a + b)[0] == a[0] && (a + b)[1..] == a[1..] + b;
    } else {
      assert a + b == b;
    }
  }

  /** The total does not depend on the order of the tasks. */
  lemma {:induction false} TotalTimeOfPermutation(a: seq<Task>, b: seq<Task>)
    requires multiset(a) == multiset(b)
    ensures TotalTime(a) == TotalTime(b)
  {
    if a != [] {
      assert a == [a[0]] + a[1..];
      assert a[0] in multiset(b);
      var i :| 0 <= i < |b| && b[i] == a[0];
      var rest := b[..i] + b[i + 1..];
      assert b == b[..i] + [b[i]] + b[i + 1..];
      assert multiset(b) == multiset(b[..i]) + multiset{b[i]} + multiset(b[i + 1..]);
      assert multiset(a) == multiset{a[0]} + multiset(a[1..]);
      assert multiset(rest) == multiset(b[..i]) + multiset(b[i + 1..]);
      assert multiset(a[1..]) == multiset(rest) by {
        forall x ensures multiset(a[1..])[x] == multiset(rest)[x] {
          assert multiset(a)[x] == multiset{a[0]}[x] + multiset(a[1..])[x];
          assert multiset(b)[x] == multiset(b[..i])[x] + multiset{b[i]}[x] + multiset(b[i + 1..])[x];
        }
      }
      TotalTimeOfPermutation(a[1..], rest);
      TotalTimeConcat(b[..i] + [b[i]], b[i + 1..]);
      TotalTimeConcat(b[..i], [b[i]]);
      TotalTimeConcat(b[..i], b[i + 1..]);
    }
  }

  /** How often `t` occurs among the required tasks of `s`. */
  lemma {:induction false} RequiredsCount(s: seq<Task>, t: Task)
    ensures multiset(Requireds(s))[t] == if t.required then multiset(s)[t] else 0
  {
    if s != [] {
      RequiredsCount(s[1..], t);
      assert s == [s[0]] + s[1..];
    }
  }

  /** Reordering the input does not change which required tasks there are, nor their total time. */
  lemma RequiredsOfPermutation(a: seq<Task>, b: seq<Task>)
    requires multiset(a) == multiset(b)
    ensures multiset(Requireds(a)) == multiset(Requireds(b))
    ensures TotalTime(Requireds(a)) == TotalTime(Requireds(b))
  {
    forall t: Task ensures multiset(Requireds(a))[t] == multiset(Requireds(b))[t] {
      RequiredsCount(a, t);
      RequiredsCount(b, t);
    }
    TotalTimeOfPermutation(Requireds(a), Requireds(b));
  }

  /** A prioritized list is its required tasks followed by its optional ones. */
  lemma {:induction false} PrioritizedSplits(p: seq<Task>)
    requires Prioritized(p)
    ensures p == Requireds(p) + Optionals(p)
  {
    if p != [] {
      assert p == [p[0]] + p[1..];
      PrioritizedCons(p[0], p[1..]);
      PrioritizedSplits(p[1..]);
      if !p[0].required {
        AllOptional(p);
      }
    }
  }

  lemma {:induction false} AllOptional(s: seq<Task>)
    requires forall k :: 0 <= k < |s| ==> !s[k].required
    ensures Requireds(s) == [] && Optionals(s) == s
  {
    if s != [] {
      AllOptional(s[1..]);
      assert s == [s[0]] + s[1..];
    }
  }

  lemma {:induction false} RequiredsConcat(a: seq<Task>, b: seq<Task>)
    ensures Requireds(a + b) == Requireds(a) + Requireds(b)
  {
    if a != [] {
      RequiredsConcat(a[1..], b);
      assert (a + b)[0] == a[0] && (a + b)[1..] == a[1..] + b;
    } else {
      assert a + b == b;
    }
  }

  lemma {:induction false} RequiredsIdempotent(s: seq<Task>)
    ensures Requireds(Requireds(s)) == Requireds(s)
  {
    if s != [] {
      RequiredsIdempotent(s[1..]);
      if s[0].required {
        assert ([s[0]] + Requireds(s[1..]))[1..] == Requireds(s[1..]);
      }
    }
  }

  // ---------------------------------------------------------------------
  // First-fit selection of the optional tasks
  // ---------------------------------------------------------------------

  /**
   * Walks `opts` in order with `used` minutes already taken, and keeps a
   * task exactly when it still fits within `budget`. A task that does not
   * fit is skipped for good, even if a later one would have left less
   * room unused.
   */
  function Greedy(opts: seq<Task>, used: int, budget: int): (r: seq<Task>)
    reads opts
    ensures forall k :: 0 <= k < |r| ==> r[k] in opts
  {
    if opts == [] then []
    else if used + opts[0].duration <= budget then
      [opts[0]] + Greedy(opts[1..], used + opts[0].duration, budget)
    else
      Greedy(opts[1..], used, budget)
  }

  /**
   * The loop's step: after the tasks before `x`, `x` is appended exactly
   * when the running total plus its duration is within the budget.
   */
  lemma {:induction false} GreedySnoc(opts: seq<Task>, x: Task, used: int, budget: int)
    ensures Greedy(opts + [x], used, budget)
         == Greedy(opts, used, budget)
            + (if used + TotalTime(Greedy(opts, used, budget)) + x.duration <= budget then [x] else [])
  {
    if opts == [] {
      assert [x][1..] == [];
    } else {
      assert (opts + [x])[1..] == opts[1..] + [x];
      if used + opts[0].duration <= budget {
        GreedySnoc(opts[1..], x, used + opts[0].duration, budget);
      } else {
        GreedySnoc(opts[1..], x, used, budget);
      }
    }
  }

  /** Starting within the budget, the kept tasks never push the total past it. */
  lemma {:induction false} GreedyWithinBudget(opts: seq<Task>, used: int, budget: int)
    requires used <= budget
    ensures used + TotalTime(Greedy(opts, used, budget)) <= budget
  {
    if opts != [] {
      if used + opts[0].duration <= budget {
        GreedyWithinBudget(opts[1..], used + opts[0].duration, budget);
      } else {
        GreedyWithinBudget(opts[1..], used, budget);
      }
    }
  }

  lemma {:induction false} GreedySubsequence(opts: seq<Task>, used: int, budget: int)
    ensures SubsequenceOf(Greedy(opts, used, budget), opts)
  {
    if opts != [] {
      if used + opts[0].duration <= budget {
        GreedySubsequence(opts[1..], used + opts[0].duration, budget);
        assert ([opts[0]] + Greedy(opts[1..], used + opts[0].duration, budget))[1..]
            == Greedy(opts[1..], used + opts[0].duration, budget);
      } else {
        GreedySubsequence(opts[1..], used, budget);
      }
    }
  }

  // ---------------------------------------------------------------------
  // The plan
  // ---------------------------------------------------------------------

  /**
   * The plan built from the prioritized tasks: a capacity failure when the
   * required tasks alone exceed `budget`; otherwise every required task,
   * then the optional tasks that fit, first-fit in prioritized order.
   */
  function PlanFor(prioritized: seq<Task>, budget: int): (r: Result<seq<Task>, Error>)
    reads prioritized
    ensures r.Failure? <==> TotalTime(Requireds(prioritized)) > budget
    ensures r.Failure? ==> r.error == CapacityExceeded(TotalTime(Requireds(prioritized)), budget)
  {
    var requiredTime := TotalTime(Requireds(prioritized));
    if requiredTime > budget then
      Failure(CapacityExceeded(requiredTime, budget))
    else
      Success(Requireds(prioritized) + Greedy(Optionals(prioritized), requiredTime, budget))
  }

  /**
   * Sorting does not change which tasks are required, so planning the
   * sorted tasks fails exactly when the required tasks, in any order,
   * exceed the budget.
   */
  lemma PlanFailsIffRequiredsExceed(tasks: seq<Task>, budget: int)
    ensures PlanFor(SortTasks(tasks), budget).Failure? <==> TotalTime(Requireds(tasks)) > budget
    ensures PlanFor(SortTasks(tasks), budget).Failure? ==>
              PlanFor(SortTasks(tasks), budget).error == CapacityExceeded(TotalTime(Requireds(tasks)), budget)
  {
    RequiredsOfPermutation(SortTasks(tasks), tasks);
  }

  /**
   * A plan holds every required task, in prioritized order and ahead of
   * the optional ones, and its total time is within the budget.
   */
  lemma PlanWithinBudget(prioritized: seq<Task>, budget: int)
    requires PlanFor(prioritized, budget).Success?
    ensures var plan := PlanFor(prioritized, budget).value;
            TotalTime(plan) <= budget
            && Requireds(plan) == Requireds(prioritized)
            && plan[..|Requireds(prioritized)|] == Requireds(prioritized)
            && forall k :: |Requireds(prioritized)| <= k < |plan| ==> !plan[k].required
  {
    var required := Requireds(prioritized);
    var requiredTime := TotalTime(required);
    var optional := Greedy(Optionals(prioritized), requiredTime, budget);
    assert forall k :: 0 <= k < |optional| ==> !optional[k].required by {
      forall k | 0 <= k < |optional| ensures !optional[k].required {
        var m :| 0 <= m < |Optionals(prioritized)| && Optionals(prioritized)[m] == optional[k];
      }
    }
    GreedyWithinBudget(Optionals(prioritized), requiredTime, budget);
    TotalTimeConcat(required, optional);
    RequiredsConcat(required, optional);
    RequiredsIdempotent(prioritized);
    AllOptional(optional);
    var plan := required + optional;
    assert plan[..|required|] == required;
    forall k | |required| <= k < |plan| ensures !plan[k].required {
      assert plan[k] == optional[k - |required|];
    }
  }

  /**
   * On a prioritized list the plan is a subsequence of it, and so is
   * itself prioritized: required tasks ahead of optional ones, priority
   * non-increasing within each group.
   */
  lemma PlanFollowsPriorityOrder(prioritized: seq<Task>, budget: int)
    requires Prioritized(prioritized)
    requires PlanFor(prioritized, budget).Success?
    ensures SubsequenceOf(PlanFor(prioritized, budget).value, prioritized)
    ensures Prioritized(PlanFor(prioritized, budget).value)
  {
    var required := Requireds(prioritized);
    var optional := Optionals(prioritized);
    PrioritizedSplits(prioritized);
    SubsequenceReflexive(required);
    GreedySubsequence(optional, TotalTime(required), budget);
    SubsequenceConcat(required, required, Greedy(optional, TotalTime(required), budget), optional);
    SubsequenceKeepsPrioritized(PlanFor(prioritized, budget).value, prioritized);
  }

  // ---------------------------------------------------------------------
  // The summary
  // ---------------------------------------------------------------------

  datatype PlanSummary = PlanSummary(
    totalTime: int, taskCount: nat, tasksIncluded: seq<string>, tasksExcluded: seq<string>)

  /** `[task.name for task in s]` */
  function Names(s: seq<Task>): (r: seq<string>)
    reads s
    ensures |r| == |s|
    ensures forall k :: 0 <= k < |s| ==> r[k] == s[k].name
  {
    if s == [] then [] else [s[0].name] + Names(s[1..])
  }

  /** `[task for task in tasks if task not in plan]`, membership by field equality. */
  function Missing(tasks: seq<Task>, plan: seq<Task>): (r: seq<Task>)
    reads tasks, plan
    ensures forall k :: 0 <= k < |r| ==> r[k] in tasks && !Contains(plan, r[k])
    ensures forall k :: 0 <= k < |tasks| && !Contains(plan, tasks[k]) ==> tasks[k] in r
  {
    if tasks == [] then []
    else
      var rest := Missing(tasks[1..], plan);
      assert forall k :: 1 <= k < |tasks| ==> tasks[k] == tasks[1..][k - 1];
      if Contains(plan, tasks[0]) then rest else [tasks[0]] + rest
  }

  lemma {:induction false} MissingSubsequence(tasks: seq<Task>, plan: seq<Task>)
    ensures SubsequenceOf(Missing(tasks, plan), tasks)
  {
    if tasks != [] {
      MissingSubsequence(tasks[1..], plan);
      if !Contains(plan, tasks[0]) {
        assert ([tasks[0]] + Missing(tasks[1..], plan))[1..] == Missing(tasks[1..], plan);
      }
    }
  }

  /**
   * Each task of `tasks` that no plan entry equals is excluded as often as
   * it occurs, and no other task is; with `MissingSubsequence` this makes
   * `Missing` exactly the filter.
   */
  lemma {:induction false} MissingCount(tasks: seq<Task>, plan: seq<Task>, x: Task)
    ensures multiset(Missing(tasks, plan))[x] == if Contains(plan, x) then 0 else multiset(tasks)[x]
  {
    if tasks != [] {
      MissingCount(tasks[1..], plan, x);
      assert tasks == [tasks[0]] + tasks[1..];
      assert multiset(tasks) == multiset{tasks[0]} + multiset(tasks[1..]);
    }
  }

  /** The summary of `plan` against the known `tasks`. */
  function Summarize(plan: seq<Task>, tasks: seq<Task>): (r: PlanSummary)
    reads plan, tasks
    ensures r.taskCount == |plan| == |r.tasksIncluded|
    ensures forall k :: 0 <= k < |plan| ==> r.tasksIncluded[k] == plan[k].name
  {
    PlanSummary(TotalTime(plan), |plan|, Names(plan), Names(Missing(tasks, plan)))
  }

  /**
   * The summary of a generated plan: its total is within the budget, and
   * every task it lists as excluded is optional, in the order of `tasks`.
   */
  lemma SummaryOfPlan(tasks: seq<Task>, budget: int)
    requires PlanFor(SortTasks(tasks), budget).Success?
    ensures var plan := PlanFor(SortTasks(tasks), budget).value;
            var excluded := Missing(tasks, plan);
            Summarize(plan, tasks).totalTime <= budget
            && SubsequenceOf(excluded, tasks)
            && Summarize(plan, tasks).tasksExcluded == Names(excluded)
            && forall k :: 0 <= k < |excluded| ==> !excluded[k].required
  {
    var sorted := SortTasks(tasks);
    var plan := PlanFor(sorted, budget).value;
    var excluded := Missing(tasks, plan);
    PlanWithinBudget(sorted, budget);
    MissingSubsequence(tasks, plan);
    forall k | 0 <= k < |excluded| ensures !excluded[k].required {
      var t := excluded[k];
      if t.required {
        RequiredIsPlanned(tasks, budget, t);
        MemberIsContained(plan, t);
        assert false;
      }
    }
  }

  /** A required task of the input is in the generated plan (as the very object). */
  lemma RequiredIsPlanned(tasks: seq<Task>, budget: int, t: Task)
    requires PlanFor(SortTasks(tasks), budget).Success?
    requires t in tasks && t.required
    ensures t in PlanFor(SortTasks(tasks), budget).value
  {
    var sorted := SortTasks(tasks);
    var plan := PlanFor(sorted, budget).value;
    RequiredsOfPermutation(sorted, tasks);
    RequiredsCount(tasks, t);
    assert t in multiset(tasks);
    assert t in multiset(Requireds(sorted));
    assert t in Requireds(sorted);
    assert plan == Requireds(sorted) + Greedy(Optionals(sorted), TotalTime(Requireds(sorted)), budget);
  }
}
