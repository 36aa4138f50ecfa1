/** The two summaries App.js derives from the task list: today's completion
    percentage, banded up to a multiple of ten, and the five-day histogram of
    completed tasks around today. Dates are day numbers. */
module Stats {
  import opened Tasks

  /** Tasks the percentage counts as today's: due `today` and not flagged
      deleted (App.js tests `delFlg !== "Y"` here). */
  function DueTodayNotDeleted(today: int): Task -> bool
  {
    (t: Task) => t.date == today && t.delFlg != "Y"
  }

  predicate IsCompleted(t: Task) { t.compFlg == "Y" }

  /** `ceil(100 * done / total / 10) * 10`, in exact integer arithmetic: the
      least multiple of ten that is at least the exact percentage. It is 100
      exactly when more than nine tenths of the tasks are done. */
  function Band(done: nat, total: nat): (p: nat)
    requires 0 < total && done <= total
    ensures p % 10 == 0 && p <= 100
    ensures 100 * done <= p * total
    ensures p == 0 || (p - 10) * total < 100 * done
    ensures p == 0 <==> done == 0
    ensures p == 100 <==> 10 * done > 9 * total
  {
    var q := (10 * done + total - 1) / total;
    BandBounds(done, total, q);
    q * 10
  }

  lemma MulMono(a: int, b: int, t: int)
    requires a <= b && 0 < t
    ensures a * t <= b * t
  {
  }

  lemma BandBounds(done: nat, total: nat, q: int)
    requires 0 < total && done <= total
    requires q == (10 * done + total - 1) / total
    ensures 0 <= q <= 10
    ensures 10 * done <= q * total
    ensures q == 0 || (q - 1) * total < 10 * done
    ensures q == 0 <==> done == 0
    ensures q == 10 <==> 10 * done > 9 * total
  {
    var n := 10 * done + total - 1;
    var qt := q * total;
    assert qt <= n < qt + total by {
      assert n == q * total + n % total;
    }
    if q < 0 {
      MulMono(q, -1, total);
      assert false;
    }
    if q > 10 {
      MulMono(11, q, total);
      assert false;
    }
    assert (q - 1) * total == qt - total;
    if done == 0 && q >= 1 {
      MulMono(1, q, total);
      assert false;
    }
    if 10 * done > 9 * total && q <= 9 {
      MulMono(q, 9, total);
      assert false;
    }
    if q == 10 {
      assert 10 * total <= n;
    }
  }

  /** The load effect's `completionPercentage`: 0 when nothing is due today,
      otherwise the share of today's tasks already completed, rounded up to
      the next multiple of ten. */
  function Percentage(tasks: seq<Task>, today: int): (p: nat)
    ensures p % 10 == 0 && p <= 100
    ensures |Filter(tasks, DueTodayNotDeleted(today))| == 0 ==> p == 0
    ensures var due := Filter(tasks, DueTodayNotDeleted(today));
            var done := Filter(due, IsCompleted);
            && (p == 0 <==> |done| == 0)
            && (p == 100 <==> 0 < |due| && 10 * |done| > 9 * |due|)
            && (0 < |due| && |done| == |due| ==> p == 100)
            && 100 * |done| <= p * |due|
            && (p == 0 || (p - 10) * |due| < 100 * |done|)
  {
    var due := Filter(tasks, DueTodayNotDeleted(today));
    var done := Filter(due, IsCompleted);
    if |due| > 0 then Band(|done|, |due|) else 0
  }

  /** The tasks that count on day `d` in the histogram: completed and due `d`.
      The deletion flag plays no part. */
  function CompletedDueOn(d: int): Task -> bool
  {
    (t: Task) => t.compFlg == "Y" && t.date == d
  }

  /** The number of completed tasks due on day `d`. */
  function CompletedOn(tasks: seq<Task>, d: int): nat
  {
    |Filter(tasks, CompletedDueOn(d))|
  }

  /** `getFilteredTasks`: the tasks due within two days of `today`. These are
      not filtered by the deletion flag. */
  function InWindow(today: int): (r: Task -> bool)
    ensures forall t :: r(t) <==> today - 2 <= t.date <= today + 2
  {
    (t: Task) => today - 2 <= t.date && t.date <= today + 2
  }

  /** `taskCount[d] || 0`. */
  function CountAt(taskCount: map<int, nat>, d: int): nat
  {
    if d in taskCount then taskCount[d] else 0
  }

  /** Appending one task raises the count of its day by one if it is
      completed, and leaves every other count as it was. */
  lemma {:induction false} CompletedOnSnoc(tasks: seq<Task>, t: Task, d: int)
    ensures CompletedOn(tasks + [t], d) ==
              CompletedOn(tasks, d) + if t.compFlg == "Y" && t.date == d then 1 else 0
  {
    FilterAppend(tasks, [t], CompletedDueOn(d));
    assert Filter([t], CompletedDueOn(d)) == (if CompletedDueOn(d)(t) then [t] else []) + Filter([], CompletedDueOn(d));
  }

  /** `countCompletedTasks`: walks the list once and bumps the counter of each
      completed task's date. Afterwards the counter of every day is the number
      of completed tasks due that day, and only days with such a task have an entry. */
  method CountCompletedTasks(tasks: seq<Task>) returns (taskCount: map<int, nat>)
    ensures forall d :: CountAt(taskCount, d) == CompletedOn(tasks, d)
    ensures forall d :: d in taskCount ==> taskCount[d] > 0
  {
    taskCount := map[];
    for i := 0 to |tasks|
      invariant forall d :: CountAt(taskCount, d) == CompletedOn(tasks[..i], d)
      invariant forall d :: d in taskCount ==> taskCount[d] > 0
    {
      var task := tasks[i];
      assert tasks[..i + 1] == tasks[..i] + [task];
      forall d ensures CompletedOn(tasks[..i + 1], d) ==
                         CompletedOn(tasks[..i], d) + if task.compFlg == "Y" && task.date == d then 1 else 0
      {
        CompletedOnSnoc(tasks[..i], task, d);
      }
      ghost var before := taskCount;
      if task.compFlg == "Y" {
        taskCount := taskCount[task.date := CountAt(taskCount, task.date) + 1];
      }
      forall d ensures CountAt(taskCount, d) == CompletedOn(tasks[..i + 1], d) {
        assert CountAt(before, d) == CompletedOn(tasks[..i], d);
      }
    }
    assert tasks[..|tasks|] == tasks;
  }

  /** Restricting the list to the window changes no count of a day inside the window. */
  lemma {:induction false} WindowKeepsCounts(tasks: seq<Task>, today: int, d: int)
    requires today - 2 <= d <= today + 2
    ensures CompletedOn(Filter(tasks, InWindow(today)), d) == CompletedOn(tasks, d)
    decreases |tasks|
  {
    if tasks != [] {
      var t := tasks[0];
      assert tasks == [t] + tasks[1..];
      WindowKeepsCounts(tasks[1..], today, d);
      FilterAppend([t], tasks[1..], CompletedDueOn(d));
      assert Filter([t], CompletedDueOn(d)) == (if CompletedDueOn(d)(t) then [t] else []) + Filter([], CompletedDueOn(d));
      var rest := Filter(tasks[1..], InWindow(today));
      if InWindow(today)(t) {
        assert Filter(tasks, InWindow(today)) == [t] + rest;
        FilterAppend([t], rest, CompletedDueOn(d));
      } else {
        assert Filter(tasks, InWindow(today)) == rest;
        assert !CompletedDueOn(d)(t);
      }
    }
  }

  /** A counter of the windowed tasks gives, for a day inside the window,
      the count of the whole list. */
  lemma WindowCount(tasks: seq<Task>, today: int, taskCount: map<int, nat>, d: int)
    requires forall e :: CountAt(taskCount, e) == CompletedOn(Filter(tasks, InWindow(today)), e)
    requires today - 2 <= d <= today + 2
    ensures CountAt(taskCount, d) == CompletedOn(tasks, d)
  {
    WindowKeepsCounts(tasks, today, d);
  }

  /** The histogram effect: the labels and the completed counts of the five
      days `today - 2 .. today + 2`, in that order. `format` stands for the
      date formatting (`toLocaleDateString` of the ISO date). */
  method Histogram(tasks: seq<Task>, today: int, format: int -> string)
    returns (labels: seq<string>, completed: seq<nat>)
    ensures |labels| == 5 && |completed| == 5
    ensures forall k :: 0 <= k < 5 ==> labels[k] == format(today - 2 + k)
    ensures forall k :: 0 <= k < 5 ==> completed[k] == CompletedOn(tasks, today - 2 + k)
  {
    var filteredTasks := Filter(tasks, InWindow(today));
    var completedTasks := CountCompletedTasks(filteredTasks);
    labels, completed := [], [];
    for i := -2 to 3
      invariant |labels| == i + 2 && |completed| == i + 2
      invariant forall k :: 0 <= k < i + 2 ==> labels[k] == format(today - 2 + k)
      invariant forall k :: 0 <= k < i + 2 ==> completed[k] == CompletedOn(tasks, today - 2 + k)
    {
      var date := today + i;
      var count := CountAt(completedTasks, date);
      WindowCount(tasks, today, completedTasks, date);
      assert date == today - 2 + (i + 2);
      labels := labels + [format(date)];
      completed := completed + [count];
    }
  }

  /** A task that is not completed, or is due outside the window, adds
      nothing to any bar. */
  lemma OutsideWindowIgnored(tasks: seq<Task>, t: Task, today: int, k: int)
    requires 0 <= k < 5
    requires t.compFlg != "Y" || t.date < today - 2 || t.date > today + 2
    ensures CompletedOn(tasks + [t], today - 2 + k) == CompletedOn(tasks, today - 2 + k)
  {
    CompletedOnSnoc(tasks, t, today - 2 + k);
  }

  /** Deleted tasks are not excluded: a completed task that is flagged deleted
      still raises the bar of its day. */
  lemma DeletedStillCounted(tasks: seq<Task>, t: Task)
    requires t.compFlg == "Y" && t.delFlg == "Y"
    ensures CompletedOn(tasks + [t], t.date) == CompletedOn(tasks, t.date) + 1
  {
    CompletedOnSnoc(tasks, t, t.date);
  }

  /** One of three tasks due today done: the exact share is 33.3 per cent,
      and the gauge shows 40, not 30. */
  lemma OneOfThreeShowsForty(today: int)
    ensures Percentage([Task("1", "a", "a", today, "C", "N", "Y"),
                        Task("2", "b", "b", today, "M", "N", "N"),
                        Task("3", "c", "c", today, "L", "N", "N")], today) == 40
  {
    var a := Task("1", "a", "a", today, "C", "N", "Y");
    var b := Task("2", "b", "b", today, "M", "N", "N");
    var c := Task("3", "c", "c", today, "L", "N", "N");
    var p := DueTodayNotDeleted(today);
    assert [a, b, c][1..] == [b, c] && [b, c][1..] == [c] && [c][1..] == [];
    assert Filter([c], p) == [c];
    assert Filter([b, c], p) == [b] + Filter([c], p) == [b, c];
    assert Filter([a, b, c], p) == [a] + Filter([b, c], p) == [a, b, c];
    assert Filter([c], IsCompleted) == [];
    assert Filter([b, c], IsCompleted) == [];
    assert Filter([a, b, c], IsCompleted) == [a];
  }

  /** Nineteen of twenty done already shows 100: the banding rounds 95 up. */
  lemma NineteenOfTwentyShowsHundred()
    ensures Band(19, 20) == 100
  {
  }

  /** A completed task on `today - 1` and one on `today + 4`, outside the
      window: only the bar of `today - 1` is raised. */
  lemma HistogramWindowScenario(today: int)
    ensures var tasks := [Task("1", "a", "a", today - 1, "C", "N", "Y"),
                          Task("2", "b", "b", today + 4, "C", "N", "Y")];
            && CompletedOn(tasks, today - 1) == 1
            && CompletedOn(tasks, today - 2) == 0
            && CompletedOn(tasks, today) == 0
            && CompletedOn(tasks, today + 1) == 0
            && CompletedOn(tasks, today + 2) == 0
  {
    var a := Task("1", "a", "a", today - 1, "C", "N", "Y");
    var b := Task("2", "b", "b", today + 4, "C", "N", "Y");
    assert [a, b] == [a] + [b];
    forall d ensures CompletedOn([a, b], d) == (if d == today - 1 then 1 else 0) + (if d == today + 4 then 1 else 0) {
      CompletedOnSnoc([a], b, d);
      CompletedOnSnoc([], a, d);
      assert [] + [a] == [a];
    }
  }
}
