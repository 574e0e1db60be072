/** The four-state priority ring of a link (`PRIORITY_STATES` and `cyclePriorityState`). */
module Priority {
  import Sequences

  const NONE: string := "none"
  const PENDING: string := "pending"
  const DONE: string := "done"
  const REMAINING: string := "remaining"

  /** `Object.values(PRIORITY_STATES)`, in declaration order. */
  const States: seq<string> := [NONE, PENDING, DONE, REMAINING]

  /** The state after `current`: its successor in `States`, wrapping round at the end.
      A value outside the ring has index -1 and so maps to the first state. */
  function Cycle(current: string): (next: string)
    ensures next in States
    ensures current in States ==> next != current
    ensures current !in States ==> next == NONE
  {
    var i := Sequences.IndexOf(States, current);
    // i + 1 lies in 0..4, so JavaScript's truncating % agrees with Dafny's here.
    States[(i + 1) % |States|]
  }

  /** The ring, step by step: none, pending, done, remaining, and back to none. */
  lemma CycleSteps()
    ensures Cycle(NONE) == PENDING
    ensures Cycle(PENDING) == DONE
    ensures Cycle(DONE) == REMAINING
    ensures Cycle(REMAINING) == NONE
  {
  }

  /** `f` applied `n` times to `s`. */
  function Iterate(f: string -> string, s: string, n: nat): string
  {
    if n == 0 then s else f(Iterate(f, s, n - 1))
  }

  /** `Cycle` applied `n` times, as `n` clicks on a link's priority button do. */
  function CycleTimes(s: string, n: nat): string
  {
    Iterate(Cycle, s, n)
  }

  /** Four clicks bring a ring state back to itself. */
  lemma CyclePeriod(s: string)
    requires s in States
    ensures Cycle(Cycle(Cycle(Cycle(s)))) == s
    ensures CycleTimes(s, 4) == s
  {
    CycleSteps();
    assert CycleTimes(s, 4) == Cycle(Cycle(Cycle(Cycle(s)))) by {
      assert CycleTimes(s, 1) == Cycle(s);
      assert CycleTimes(s, 2) == Cycle(CycleTimes(s, 1));
      assert CycleTimes(s, 3) == Cycle(CycleTimes(s, 2));
    }
    assert s == NONE || s == PENDING || s == DONE || s == REMAINING;
  }

  /** The first of `n + 1` applications can be taken before the others. */
  lemma {:induction false} IterateShift(f: string -> string, s: string, n: nat)
    ensures Iterate(f, s, n + 1) == Iterate(f, f(s), n)
  {
    if n > 0 {
      IterateShift(f, s, n - 1);
    }
  }

  /** After the first click the state is in the ring, and from then on it repeats every
      four clicks, whatever value the link started with. */
  lemma {:induction false} CycleTimesPeriodic(s: string, n: nat)
    requires s in States || n > 0
    ensures CycleTimes(s, n) in States
    ensures CycleTimes(s, n + 4) == CycleTimes(s, n)
    decreases n
  {
    if n == 0 {
      CyclePeriod(s);
    } else {
      var t := Cycle(s);
      var m: nat := n - 1;
      IterateShift(Cycle, s, m);
      IterateShift(Cycle, s, m + 4);
      CycleTimesPeriodic(t, m);
      assert m + 1 == n && m + 4 + 1 == n + 4;
      assert CycleTimes(s, n) == Iterate(Cycle, t, m) == CycleTimes(t, m);
      assert CycleTimes(s, n + 4) == Iterate(Cycle, t, m + 4) == CycleTimes(t, m + 4);
    }
  }
}
