/** The task counter (`counter_iterator`): a number of tasks, a step and
    the progress made so far. `Count` is its value; the class `Counter`
    is the object the progress bar updates in place. */
module Counting {

  /** A counter's three fields: `num_tasks_`, `step_` and `current_`. */
  datatype Count = Count(tasks: nat, step: nat, current: nat)

  /** `is_ended`: either the counter has reached its tasks, or fewer tasks
      remain than one step, tested without a division. */
  predicate Ended(c: Count) {
    c.current >= c.tasks || c.tasks - c.current < c.step
  }

  /** The division-free test says that one more step would overshoot the
      tasks (or the tasks are already reached). */
  lemma EndedIffStepOvershoots(c: Count)
    ensures Ended(c) <==> c.current >= c.tasks || c.current + c.step > c.tasks
  {
  }

  /** `operator++`: advance by one step, without any clamp. */
  function Incremented(c: Count): Count {
    c.(current := c.current + c.step)
  }

  /** `operator+=`: advance by `k`, saturating at the number of tasks. The
      result never passes the tasks, never goes back from a count within
      the tasks, and is exact whenever the tasks are not passed. */
  function Advanced(c: Count, k: nat): (r: Count)
    ensures r.tasks == c.tasks && r.step == c.step
    ensures r.current <= c.tasks
    ensures c.current <= c.tasks ==> c.current <= r.current
    ensures c.current + k <= c.tasks ==> r.current == c.current + k
    ensures c.current + k >= c.tasks ==> r.current == c.tasks
  {
    c.(current := if c.current + k > c.tasks then c.tasks else c.current + k)
  }

  /** `operator=(const counter_iterator&)`: take the other counter's tasks
      and step, restart from zero. */
  function Assigned(from: Count): Count {
    Count(from.tasks, from.step, 0)
  }

  /** Assignment keeps the configuration of its source and forgets its
      progress; assigning twice is the same as assigning once. */
  lemma AssignedRestarts(from: Count)
    ensures Assigned(from).tasks == from.tasks && Assigned(from).step == from.step
    ensures Assigned(from).current == 0
    ensures Assigned(Assigned(from)) == Assigned(from)
    ensures Ended(Assigned(from)) <==> from.tasks == 0 || from.tasks < from.step
  {
  }

  /** A step taken while the counter has not ended stays within the tasks. */
  lemma IncrementWithinTasks(c: Count)
    requires !Ended(c)
    ensures Incremented(c).current <= c.tasks
    ensures Incremented(c).current == c.current + c.step
  {
  }

  /** `k` calls of `operator++`. */
  function Iterated(c: Count, k: nat): Count {
    if k == 0 then c else Incremented(Iterated(c, k - 1))
  }

  lemma {:induction false} IteratedCurrent(c: Count, k: nat)
    ensures Iterated(c, k).tasks == c.tasks && Iterated(c, k).step == c.step
    ensures Iterated(c, k).current == c.current + k * c.step
  {
    if k > 0 {
      IteratedCurrent(c, k - 1);
    }
  }

  /** Starting from zero with `tasks > 0` and `step >= 1`, the counter has
      ended after `k` calls of `operator++` exactly when `k >= tasks / step`:
      it first ends after `tasks / step` steps (the last partial step counts
      as finished), and up to then it never passes the tasks. */
  lemma {:induction false} EndsAfterQuotientSteps(tasks: nat, step: nat, k: nat)
    requires tasks > 0 && step >= 1
    ensures Ended(Iterated(Count(tasks, step, 0), k)) <==> k >= tasks / step
    ensures k <= tasks / step ==> Iterated(Count(tasks, step, 0), k).current <= tasks
  {
    var c := Iterated(Count(tasks, step, 0), k);
    IteratedCurrent(Count(tasks, step, 0), k);
    var q, r := tasks / step, tasks % step;
    assert tasks == q * step + r && r < step;
    if k >= q {
      MulMonotone(q + 1, k + 1, step);
      Distribute(k, step);
      Distribute(q, step);
    } else {
      MulMonotone(k + 1, q, step);
      Distribute(k, step);
    }
    if k <= q {
      MulMonotone(k, q, step);
    }
  }

  lemma {:induction false} MulMonotone(x: nat, y: nat, s: nat)
    requires x <= y
    ensures x * s <= y * s
  {
    if x < y {
      MulMonotone(x, y - 1, s);
      Distribute(y - 1, s);
    }
  }

  lemma Distribute(x: nat, s: nat)
    ensures (x + 1) * s == x * s + s
  {
  }

  /** The number of values of a 64-bit `size_t`: sums of two `size_t`
      values are taken modulo this. */
  const SizeLimit: nat := 0x1_0000_0000_0000_0000

  /** `operator+=` as written: `current_ + _increment` is computed in 64-bit
      unsigned arithmetic and wraps before the comparison with the tasks. */
  function AdvancedAsWritten(c: Count, k: nat): (r: Count)
    requires c.tasks < SizeLimit && c.current < SizeLimit && k < SizeLimit
    ensures r.tasks == c.tasks && r.step == c.step && r.current <= c.tasks
  {
    var sum := (c.current + k) % SizeLimit;
    c.(current := if sum > c.tasks then c.tasks else sum)
  }

  /** Without a wrap the written `operator+=` is the saturating one. */
  lemma AdvancedAsWrittenAgrees(c: Count, k: nat)
    requires c.tasks < SizeLimit && c.current < SizeLimit && k < SizeLimit
    requires c.current + k < SizeLimit
    ensures AdvancedAsWritten(c, k) == Advanced(c, k)
  {
  }

  /** An increment close to the largest `size_t` wraps around and moves the
      counter backwards: from 5 of 10 tasks, `+= 2^64 - 1` leaves 4, where
      the saturating addition reaches 10. */
  lemma AdvanceWrapsBackwards()
    ensures AdvancedAsWritten(Count(10, 1, 5), SizeLimit - 1).current == 4
    ensures Advanced(Count(10, 1, 5), SizeLimit - 1).current == 10
  {
  }

  /** `counter_iterator`, updated in place by the progress bar. */
  class Counter {
    var tasks: nat
    var step: nat
    var current: nat

    function Value(): Count
      reads this
    {
      Count(tasks, step, current)
    }

    constructor (tasks: nat, step: nat)
      ensures Value() == Count(tasks, step, 0)
    {
      this.tasks := tasks;
      this.step := step;
      current := 0;
    }

    /** `is_ended`. */
    predicate IsEnded()
      reads this
    {
      Ended(Value())
    }

    /** `operator++`. */
    method Increment()
      modifies this
      ensures Value() == Incremented(old(Value()))
    {
      current := current + step;
    }

    /** `operator+=`, with the saturating addition. */
    method Advance(k: nat)
      modifies this
      ensures Value() == Advanced(old(Value()), k)
    {
      current := if current + k > tasks then tasks else current + k;
    }

    /** `operator=(const counter_iterator&)`. */
    method AssignFrom(other: Counter)
      modifies this
      ensures Value() == Assigned(old(other.Value()))
    {
      tasks, step, current := other.tasks, other.step, 0;
    }

    /** `operator=(value_type)`: overwrite the progress. */
    method SetCurrent(n: nat)
      modifies this
      ensures Value() == old(Value()).(current := n)
    {
      current := n;
    }

    /** `set_step`. */
    method SetStep(s: nat)
      modifies this
      ensures Value() == old(Value()).(step := s)
    {
      step := s;
    }

    /** `set_task`. */
    method SetTask(t: nat)
      modifies this
      ensures Value() == old(Value()).(tasks := t)
    {
      tasks := t;
    }
  }
}
