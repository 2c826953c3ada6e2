/** Task toggling and the progress percentage derived from a goal's tasks
    (calculateProgress in src/pages/Goals.tsx and src/pages/Dashboard.tsx). */
module Tasks {
  import opened Wrappers
  import opened Common
  import opened Seqs
  import opened GoalModel

  predicate IsChecked(t: Task) {
    t.checked
  }

  /** `tasks.filter(t => t.checked).length`. */
  function CheckedCount(tasks: seq<Task>): (n: nat)
    ensures n <= |tasks|
  {
    |Filter(tasks, IsChecked)|
  }

  /** The count splits over the first task and the rest. */
  lemma {:induction false} CheckedCountCons(tasks: seq<Task>)
    requires |tasks| > 0
    ensures CheckedCount(tasks) == (if tasks[0].checked then 1 else 0) + CheckedCount(tasks[1..])
  {
  }

  /** Every task is checked exactly when the count is the length. */
  lemma {:induction false} AllCheckedIff(tasks: seq<Task>)
    ensures CheckedCount(tasks) == |tasks| <==> forall i :: 0 <= i < |tasks| ==> tasks[i].checked
  {
    if |tasks| > 0 {
      CheckedCountCons(tasks);
      AllCheckedIff(tasks[1..]);
      if forall i :: 0 <= i < |tasks| ==> tasks[i].checked {
        assert forall i :: 0 <= i < |tasks[1..]| ==> tasks[1..][i].checked by {
          forall i | 0 <= i < |tasks[1..]| ensures tasks[1..][i].checked {
            assert tasks[1..][i] == tasks[i + 1];
          }
        }
      } else if tasks[0].checked {
        var j :| 0 <= j < |tasks| && !tasks[j].checked;
        assert tasks[1..][j - 1] == tasks[j];
      }
    }
  }

  /** No task is checked exactly when the count is zero. */
  lemma {:induction false} NoneCheckedIff(tasks: seq<Task>)
    ensures CheckedCount(tasks) == 0 <==> forall i :: 0 <= i < |tasks| ==> !tasks[i].checked
  {
    if |tasks| > 0 {
      CheckedCountCons(tasks);
      NoneCheckedIff(tasks[1..]);
      if forall i :: 0 <= i < |tasks| ==> !tasks[i].checked {
        assert forall i :: 0 <= i < |tasks[1..]| ==> !tasks[1..][i].checked by {
          forall i | 0 <= i < |tasks[1..]| ensures !tasks[1..][i].checked {
            assert tasks[1..][i] == tasks[i + 1];
          }
        }
      } else if !tasks[0].checked {
        var j :| 0 <= j < |tasks| && tasks[j].checked;
        assert tasks[1..][j - 1] == tasks[j];
      }
    }
  }

  lemma MulLeCancel(a: real, b: real, x: real)
    requires 0.0 < x && a * x <= b * x
    ensures a <= b
  {
  }

  lemma MulLtCancel(a: real, b: real, x: real)
    requires 0.0 < x && a * x < b * x
    ensures a < b
  {
  }

  lemma MulLtCancelInt(a: int, b: int, x: int)
    requires 0 < x && a * x < b * x
    ensures a < b
  {
  }

  /** A fraction of a positive whole lies in [0, 1]. */
  lemma FractionBounds(c: real, n: real)
    requires 0.0 <= c <= n && 0.0 < n
    ensures 0.0 <= c / n <= 1.0
    ensures (c / n) * n == c
  {
    var q := c / n;
    assert q * n == c;
    MulLeCancel(q, 1.0, n);
    MulLeCancel(0.0, q, n);
  }

  /** `p` is the share `c` of `n` as a percentage: `p * n == 100 * c`. */
  ghost predicate IsPercentOf(p: real, c: nat, n: nat) {
    p * (n as real) == 100.0 * (c as real)
  }

  /** `(c / n) * 100` for `c` of `n` items; 0 when there are none. */
  function Percent(c: nat, n: nat): (p: real)
    requires c <= n
    ensures 0.0 <= p <= 100.0
    ensures n == 0 ==> p == 0.0
    ensures n > 0 ==> IsPercentOf(p, c, n)
  {
    if n == 0 then 0.0
    else
      var cr := c as real;
      var nr := n as real;
      FractionBounds(cr, nr);
      (cr / nr) * 100.0
  }

  /** Goals.tsx: `(completed / tasks.length) * 100`, 0 for no tasks, as an exact rational. */
  function ExactProgress(tasks: seq<Task>): (p: real)
    ensures 0.0 <= p <= 100.0
    ensures |tasks| == 0 ==> p == 0.0
    ensures |tasks| > 0 ==> IsPercentOf(p, CheckedCount(tasks), |tasks|)
  {
    Percent(CheckedCount(tasks), |tasks|)
  }

  /** `Math.round(num / den)`: the nearest integer, halves rounded up. */
  function RoundHalfUp(num: int, den: int): (r: int)
    requires den > 0
    ensures 2 * den * r <= 2 * num + den < 2 * den * r + 2 * den
  {
    (2 * num + den) / (2 * den)
  }

  /** Rounding keeps a quotient within integer bounds of it. */
  lemma RoundHalfUpBounds(num: int, den: int, lo: int, hi: int)
    requires den > 0
    requires lo * den <= num <= hi * den
    ensures lo <= RoundHalfUp(num, den) <= hi
  {
    var r := RoundHalfUp(num, den);
    assert r * (2 * den) == 2 * den * r;
    assert (hi + 1) * (2 * den) == 2 * (hi * den) + 2 * den;
    MulLtCancelInt(r, hi + 1, 2 * den);
    assert lo * (2 * den) == 2 * (lo * den);
    assert (r + 1) * (2 * den) == 2 * den * r + 2 * den;
    MulLtCancelInt(lo, r + 1, 2 * den);
  }

  /** Dashboard.tsx: `Math.round((completed / tasks.length) * 100)`, 0 for no tasks. */
  function RoundedProgress(tasks: seq<Task>): (p: int)
    ensures 0 <= p <= 100
    ensures |tasks| == 0 ==> p == 0
  {
    if |tasks| == 0 then 0
    else
      RoundHalfUpBounds(100 * CheckedCount(tasks), |tasks|, 0, 100);
      RoundHalfUp(100 * CheckedCount(tasks), |tasks|)
  }

  /** Halving the integer rounding bounds over a positive real denominator;
      `nr` and `en` name the products `n * r` and `e * n`. */
  lemma NearestFromScaled(r: real, e: real, n: real, nr: real, en: real)
    requires 0.0 < n && nr == n * r && en == e * n
    requires 2.0 * nr <= 2.0 * en + n < 2.0 * nr + 2.0 * n
    ensures r - 0.5 <= e < r + 0.5
  {
    assert (r - 0.5) * n == nr - 0.5 * n;
    assert (r + 0.5) * n == nr + 0.5 * n;
    MulLeCancel(r - 0.5, e, n);
    MulLtCancel(e, r + 0.5, n);
  }

  lemma CastMul(a: int, b: int)
    ensures (a * b) as real == (a as real) * (b as real)
  {
  }

  /** Rounding `100 * c / n` half up lands within half a point of the exact percentage. */
  lemma RoundedPercentIsNearest(c: nat, n: nat)
    requires c <= n && n > 0
    ensures var r := RoundHalfUp(100 * c, n) as real;
      r - 0.5 <= Percent(c, n) < r + 0.5
  {
    var r := RoundHalfUp(100 * c, n);
    var e := Percent(c, n);
    var m := n * r;
    assert 2 * m <= 200 * c + n < 2 * m + 2 * n;
    CastMul(n, r);
    assert IsPercentOf(e, c, n);
    NearestFromScaled(r as real, e, n as real, m as real, 100.0 * (c as real));
  }

  /** The dashboard's figure is the page's exact percentage rounded to the nearest
      integer, halves up. */
  lemma RoundedIsNearest(tasks: seq<Task>)
    ensures (RoundedProgress(tasks) as real) - 0.5 <= ExactProgress(tasks)
    ensures ExactProgress(tasks) < (RoundedProgress(tasks) as real) + 0.5
  {
    if |tasks| > 0 {
      RoundedPercentIsNearest(CheckedCount(tasks), |tasks|);
    }
  }

  /** All tasks checked gives 100; none checked gives 0. */
  lemma RoundedExtremes(tasks: seq<Task>)
    requires |tasks| > 0
    ensures (forall i :: 0 <= i < |tasks| ==> tasks[i].checked) ==> RoundedProgress(tasks) == 100
    ensures (forall i :: 0 <= i < |tasks| ==> !tasks[i].checked) ==> RoundedProgress(tasks) == 0
  {
    AllCheckedIff(tasks);
    NoneCheckedIff(tasks);
    var n := |tasks|;
    if CheckedCount(tasks) == n {
      RoundHalfUpBounds(100 * n, n, 100, 100);
    }
    if CheckedCount(tasks) == 0 {
      RoundHalfUpBounds(0, n, 0, 0);
    }
  }

  function Flip(t: Task, taskId: Id): Task {
    if t.id == Some(taskId) then t.(checked := !t.checked) else t
  }

  /** `tasks.map(task => task.id === taskId ? { ...task, checked: !task.checked } : task)`. */
  function ToggleTasks(tasks: seq<Task>, taskId: Id): (r: seq<Task>)
    ensures |r| == |tasks|
    ensures forall i :: 0 <= i < |r| ==> r[i].id == tasks[i].id && r[i].taskLabel == tasks[i].taskLabel
    ensures forall i :: 0 <= i < |r| ==>
      (r[i].checked != tasks[i].checked <==> tasks[i].id == Some(taskId))
  {
    seq(|tasks|, i requires 0 <= i < |tasks| => Flip(tasks[i], taskId))
  }

  /** Toggling the same task twice restores the list. */
  lemma ToggleTwice(tasks: seq<Task>, taskId: Id)
    ensures ToggleTasks(ToggleTasks(tasks, taskId), taskId) == tasks
  {
    var r := ToggleTasks(ToggleTasks(tasks, taskId), taskId);
    forall i | 0 <= i < |tasks| ensures r[i] == tasks[i] {
    }
  }

  /** Task ids are pairwise distinct. */
  ghost predicate DistinctTaskIds(tasks: seq<Task>) {
    forall i, j :: 0 <= i < j < |tasks| && tasks[i].id.Some? ==> tasks[i].id != tasks[j].id
  }

  /** With distinct ids, toggling the task at position `k` moves the checked count by one. */
  lemma {:induction false} ToggleMovesCountByOne(tasks: seq<Task>, k: nat)
    requires k < |tasks| && tasks[k].id.Some?
    requires DistinctTaskIds(tasks)
    ensures CheckedCount(ToggleTasks(tasks, tasks[k].id.value)) ==
      if tasks[k].checked then CheckedCount(tasks) - 1 else CheckedCount(tasks) + 1
  {
    var id := tasks[k].id.value;
    var r := ToggleTasks(tasks, id);
    CheckedCountCons(tasks);
    CheckedCountCons(r);
    if k == 0 {
      assert r[1..] == tasks[1..] by {
        forall i | 0 <= i < |tasks| - 1 ensures r[1..][i] == tasks[1..][i] {
          assert tasks[i + 1].id != tasks[0].id;
        }
      }
    } else {
      assert r[0] == tasks[0] by {
        assert tasks[0].id != tasks[k].id;
      }
      assert DistinctTaskIds(tasks[1..]) by {
        forall i, j | 0 <= i < j < |tasks[1..]| && tasks[1..][i].id.Some?
          ensures tasks[1..][i].id != tasks[1..][j].id
        {
          assert tasks[1..][i] == tasks[i + 1] && tasks[1..][j] == tasks[j + 1];
        }
      }
      assert tasks[1..][k - 1] == tasks[k];
      ToggleMovesCountByOne(tasks[1..], k - 1);
      assert r[1..] == ToggleTasks(tasks[1..], id);
    }
  }

  /** A new goal of four unchecked tasks shows 0%; checking one of them shows 25%. */
  lemma FourTaskScenario(a: Id, b: Id, c: Id, d: Id)
    requires a != b && a != c && a != d && b != c && b != d && c != d
    ensures var ts := [Task(Some(a), "1", false), Task(Some(b), "2", false),
                       Task(Some(c), "3", false), Task(Some(d), "4", false)];
      RoundedProgress(ts) == 0 && RoundedProgress(ToggleTasks(ts, a)) == 25
      && ExactProgress(ToggleTasks(ts, a)) == 25.0
  {
    var ts := [Task(Some(a), "1", false), Task(Some(b), "2", false),
               Task(Some(c), "3", false), Task(Some(d), "4", false)];
    RoundedExtremes(ts);
    ToggleMovesCountByOne(ts, 0);
    assert CheckedCount(ToggleTasks(ts, a)) == 1;
  }
}
