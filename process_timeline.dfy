/**
 * The process timeline of js/main.js (`initProcessTimeline`): while the
 * timeline is visible, one step after another carries the `active` class,
 * advancing on every tick of an interval timer; when it leaves the view no
 * step is active.
 */
module ProcessTimeline {
  import opened Flags

  /**
   * The value of `currentStep`: an index, or `NaN`, which the number
   * becomes once `% steps.length` is taken with no steps and then keeps.
   */
  datatype Counter = Index(n: nat) | NaN

  /** `(currentStep + 1) % steps.length` with `count` steps. */
  function Next(c: Counter, count: nat): (r: Counter)
    ensures count == 0 || c == NaN ==> r == NaN
    ensures count > 0 && c.Index? ==> r.Index? && r.n < count
  {
    if count == 0 || c == NaN then NaN else Index((c.n + 1) % count)
  }

  /** The counter after `m` ticks. */
  function Advance(c: Counter, count: nat, m: nat): Counter {
    if m == 0 then c else Next(Advance(c, count, m - 1), count)
  }

  /** The active flags `updateActiveStep` gives the `count` steps: step `i` is active when `i === currentStep`. */
  function Marked(count: nat, c: Counter): (r: seq<bool>)
    ensures |r| == count && AtMostOne(r)
  {
    seq(count, i requires 0 <= i < count => c == Index(i))
  }

  /** Exactly one step is active. */
  predicate ExactlyOne(active: seq<bool>) {
    exists i :: 0 <= i < |active| && active[i] && forall j :: 0 <= j < |active| && active[j] ==> j == i
  }

  /** An index in range marks exactly one step; NaN or an index past the end marks none. */
  lemma {:induction false} MarkedSteps(count: nat, c: Counter)
    ensures c.Index? && c.n < count ==> ExactlyOne(Marked(count, c))
    ensures (c == NaN || c.n >= count) ==> forall i :: 0 <= i < count ==> !Marked(count, c)[i]
  {
    if c.Index? && c.n < count {
      assert Marked(count, c)[c.n];
    }
  }

  /** From index `k`, `m` ticks lead to index `(k + m) % count`: the steps are visited in a cycle. */
  lemma {:induction false} AdvanceCycles(k: nat, count: nat, m: nat)
    requires k < count
    ensures Advance(Index(k), count, m) == Index((k + m) % count)
  {
    if m > 0 {
      AdvanceCycles(k, count, m - 1);
      var p := (k + m - 1) % count;
      assert (p + 1) % count == (k + m) % count by {
        ModSucc(k + m - 1, count);
      }
    }
  }

  /** `((a % n) + 1) % n == (a + 1) % n` */
  lemma {:induction false} ModSucc(a: nat, n: nat)
    requires n > 0
    ensures ((a % n) + 1) % n == (a + 1) % n
    decreases a
  {
    if a >= n {
      ModShift(a, n);
      ModShift(a + 1, n);
      ModSucc(a - n, n);
    }
  }

  /** `x % n == (x - n) % n` once `x >= n` */
  lemma {:induction false} ModShift(x: nat, n: nat)
    requires n > 0 && x >= n
    ensures x % n == (x - n) % n
  {
    var q, r := x / n, x % n;
    var q2, r2 := (x - n) / n, (x - n) % n;
    assert x == q * n + r;
    assert x - n == q2 * n + r2;
    assert (q - 1 - q2) * n == r2 - r;
    ZeroMultiple(q - 1 - q2, n, r2 - r);
  }

  /** A multiple of `n` strictly between `-n` and `n` is zero. */
  lemma {:induction false} ZeroMultiple(d: int, n: int, e: int)
    requires n > 0 && d * n == e && -n < e < n
    ensures d == 0
  {
  }

  /** After as many ticks as there are steps the animation is back at the first step. */
  lemma {:induction false} FullCycle(count: nat)
    requires count > 0
    ensures Advance(Index(0), count, count) == Index(0)
  {
    AdvanceCycles(0, count, count);
    assert (0 + count) % count == 0;
  }

  /** With no steps, the first tick turns the counter into NaN for good. */
  lemma {:induction false} NoStepsGiveNaN(c: Counter, m: nat)
    requires m > 0
    ensures Advance(c, 0, m) == NaN
  {
    if m > 1 {
      NoStepsGiveNaN(c, m - 1);
    }
  }

  /** The steps of one timeline, with the `currentStep` it shares between its handlers. */
  class Timeline {
    const steps: array<bool>
    var currentStep: Counter

    /** With at least one step, `currentStep` is a number: it only becomes NaN when there are no steps. */
    predicate Valid()
      reads this
    {
      steps.Length == 0 || currentStep.Index?
    }

    /**
     * The state at page load: `currentStep = 0`; the steps keep the
     * `active` classes the page markup gives them, `initial`.
     */
    constructor(initial: seq<bool>)
      ensures fresh(steps) && steps[..] == initial
      ensures currentStep == Index(0)
      ensures Valid()
    {
      steps := new bool[|initial|](i requires 0 <= i < |initial| => initial[i]);
      currentStep := Index(0);
    }

    /** `updateActiveStep`: exactly the step at `currentStep` is active. */
    method UpdateActiveStep()
      modifies steps
      ensures steps[..] == Marked(steps.Length, currentStep)
    {
      for index := 0 to steps.Length
        invariant forall i :: 0 <= i < index ==> steps[i] == (currentStep == Index(i))
      {
        if currentStep == Index(index) {
          steps[index] := true;
        } else {
          steps[index] := false;
        }
      }
    }

    /** `startStepAnimation`, without its timer: back to the first step. */
    method Start()
      modifies this, steps
      ensures currentStep == Index(0)
      ensures steps[..] == Marked(steps.Length, Index(0))
      ensures Valid()
      ensures steps.Length > 0 ==> ExactlyOne(steps[..])
    {
      currentStep := Index(0);
      UpdateActiveStep();
      MarkedSteps(steps.Length, currentStep);
    }

    /** One run of the interval callback: advance to the next step. */
    method Tick()
      requires Valid()
      modifies this, steps
      ensures currentStep == Next(old(currentStep), steps.Length)
      ensures steps[..] == Marked(steps.Length, currentStep)
      ensures Valid()
      ensures steps.Length > 0 ==> ExactlyOne(steps[..])
    {
      currentStep := Next(currentStep, steps.Length);
      UpdateActiveStep();
      MarkedSteps(steps.Length, currentStep);
    }

    /** `stopStepAnimation`, without its timer: no step is active; `currentStep` is kept. */
    method Stop()
      requires Valid()
      modifies steps
      ensures forall i :: 0 <= i < steps.Length ==> !steps[i]
      ensures Valid()
    {
      var j := 0;
      while j < steps.Length
        invariant 0 <= j <= steps.Length
        invariant forall i :: 0 <= i < j ==> !steps[i]
      {
        steps[j] := false;
        j := j + 1;
      }
    }
  }
}
