/**
  The 4-4-4 guided breathing exercise as a state machine: one `Tick` is one
  firing of the one-second interval. The exercise runs inhale, hold and
  exhale for four ticks each and stops after five full cycles.
 */
module Breathing {

  datatype Phase = Inhale | Hold | Exhale

  /** Ticks spent in each phase. */
  function Duration(p: Phase): nat
  {
    match p
    case Inhale => 4
    case Hold => 4
    case Exhale => 4
  }

  /** Inhale is followed by hold, hold by exhale, exhale by inhale. */
  function NextPhase(p: Phase): (q: Phase)
    ensures q != p
  {
    match p
    case Inhale => Hold
    case Hold => Exhale
    case Exhale => Inhale
  }

  /** The phases cycle strictly: three steps lead back to the start, through the other two phases. */
  lemma PhasesCycle(p: Phase)
    ensures NextPhase(NextPhase(NextPhase(p))) == p
    ensures {p, NextPhase(p), NextPhase(NextPhase(p))} == {Inhale, Hold, Exhale}
  {
  }

  /** Number of full cycles after which the exercise stops. */
  const MaxCycles: nat := 5

  /** The exercise: whether it runs, the current phase, the ticks spent in it, the cycles completed. */
  datatype Exercise = Exercise(active: bool, phase: Phase, count: nat, cycles: nat)

  /** Pressing start: a valid, running exercise at the first tick of inhale with no cycle completed. */
  function Start(): (s: Exercise)
    ensures Valid(s) && s.active
    ensures s.phase == Inhale && s.count == 0 && s.cycles == 0
  {
    Exercise(true, Inhale, 0, 0)
  }

  /** The state after the last cycle: stopped, back at inhale with count 0. */
  function Finished(): Exercise
  {
    Exercise(false, Inhale, 0, MaxCycles)
  }

  /** The states a started exercise can be in. */
  predicate Valid(s: Exercise)
  {
    && s.count < Duration(s.phase)
    && s.cycles <= MaxCycles
    && (s.active <==> s.cycles < MaxCycles)
    && (!s.active ==> s == Finished())
  }

  /**
    One firing of the interval. A stopped exercise has no interval, so
    nothing changes. Otherwise the count goes up by one within the phase,
    or, when the phase's duration is reached, the count restarts at 0 in
    the next phase; leaving exhale completes a cycle, and the fifth
    completed cycle stops the exercise.
   */
  function Tick(s: Exercise): (r: Exercise)
    ensures Valid(s) ==> Valid(r)
    ensures !s.active ==> r == s
    ensures s.active && s.count + 1 < Duration(s.phase) ==> r == s.(count := s.count + 1)
    ensures s.active && s.count + 1 >= Duration(s.phase) ==>
      && r.count == 0
      && r.phase == NextPhase(s.phase)
      && r.cycles == (if s.phase == Exhale then s.cycles + 1 else s.cycles)
      && (!r.active <==> s.phase == Exhale && s.cycles + 1 >= MaxCycles)
  {
    if !s.active then s
    else
      var count := s.count + 1;
      if count < Duration(s.phase) then s.(count := count)
      else
        match s.phase
        case Inhale => s.(phase := Hold, count := 0)
        case Hold => s.(phase := Exhale, count := 0)
        case Exhale =>
          var cycles := s.cycles + 1;
          if cycles >= MaxCycles then Exercise(false, Inhale, 0, cycles)
          else s.(phase := Inhale, count := 0, cycles := cycles)
  }

  /** The completed-cycle counter moves only when exhale gives way to inhale, and then by one. */
  lemma CyclesAdvanceOnlyAfterExhale(s: Exercise)
    requires Valid(s)
    ensures Tick(s).cycles != s.cycles ==>
      s.phase == Exhale && Tick(s).phase == Inhale && Tick(s).cycles == s.cycles + 1
    ensures Tick(s).cycles >= s.cycles
  {
  }

  /** The countdown shown, `duration - count`, is always between 1 and 4. */
  lemma CountdownInRange(s: Exercise)
    requires Valid(s)
    ensures 1 <= Duration(s.phase) - s.count <= 4
  {
  }

  /** The state after `n` ticks from `s`. */
  function Ticks(s: Exercise, n: nat): Exercise
  {
    if n == 0 then s else Tick(Ticks(s, n - 1))
  }

  /** The phase with index 0, 1, 2 in the cycle. */
  function PhaseAt(k: nat): Phase
  {
    if k % 3 == 0 then Inhale else if k % 3 == 1 then Hold else Exhale
  }

  /** Ticks per full cycle, and ticks in the whole exercise. */
  const CycleTicks: nat := 12
  const TotalTicks: nat := 60

  /**
    Before the end, the state after `n` ticks is fixed by `n` alone: phase
    number `n / 4` of the cycle, count `n % 4`, and `n / 12` cycles done.
   */
  lemma {:induction false} RunningState(n: nat)
    requires n < TotalTicks
    ensures Ticks(Start(), n) == Exercise(true, PhaseAt(n / 4), n % 4, n / CycleTicks)
  {
    if n > 0 {
      var m := n - 1;
      RunningState(m);
      NextTickArithmetic(m);
      var prev := Ticks(Start(), m);
      assert Ticks(Start(), n) == Tick(prev);
      var q, c, t := m / 4, m % 4, m / CycleTicks;
      assert prev == Exercise(true, PhaseAt(q), c, t);
      PhaseAtNext(q);
      if c < 3 {
        assert Tick(prev) == Exercise(true, PhaseAt(q), c + 1, t);
      } else if q % 3 == 2 {
        assert t + 1 < MaxCycles;
        assert Tick(prev) == Exercise(true, PhaseAt(q + 1), 0, t + 1);
      } else {
        assert Tick(prev) == Exercise(true, PhaseAt(q + 1), 0, t);
      }
    }
  }

  /** Phase number `k + 1` follows phase number `k`. */
  lemma PhaseAtNext(k: nat)
    ensures PhaseAt(k + 1) == NextPhase(PhaseAt(k))
    ensures PhaseAt(k) == Exhale <==> k % 3 == 2
  {
  }

  /** How phase number, count and cycle number move from tick `m` to tick `m + 1`. */
  lemma NextTickArithmetic(m: nat)
    ensures m % 4 < 3 ==> (m + 1) % 4 == m % 4 + 1 && (m + 1) / 4 == m / 4 && (m + 1) / CycleTicks == m / CycleTicks
    ensures m % 4 == 3 ==> (m + 1) % 4 == 0 && (m + 1) / 4 == m / 4 + 1
    ensures m % 4 == 3 && (m / 4) % 3 == 2 ==> (m + 1) / CycleTicks == m / CycleTicks + 1
    ensures m % 4 == 3 && (m / 4) % 3 != 2 ==> (m + 1) / CycleTicks == m / CycleTicks
  {
    var q := m / 4;
    var c := m % 4;
    assert m == 4 * q + c;
    var t := q / 3;
    var k := q % 3;
    assert q == 3 * t + k;
    assert m == 12 * t + 4 * k + c;
    assert m / CycleTicks == t;
  }

  /**
    The exercise stops after exactly five full cycles: it is still running
    after 59 ticks, and the 60th tick leaves it stopped at inhale with
    count 0; further ticks change nothing.
   */
  lemma {:induction false} StopsAfterFiveCycles(n: nat)
    ensures n < TotalTicks ==> Ticks(Start(), n).active
    ensures n >= TotalTicks ==> Ticks(Start(), n) == Finished()
  {
    if n < TotalTicks {
      RunningState(n);
    } else if n == TotalTicks {
      RunningState(n - 1);
      var last := Exercise(true, PhaseAt(14), 3, 4);
      assert PhaseAt(14) == Exhale;
      assert Ticks(Start(), n - 1) == last;
      assert Tick(last) == Finished();
    } else {
      StopsAfterFiveCycles(n - 1);
    }
  }

  /** Every state reached from the start is valid. */
  lemma {:induction false} ReachableIsValid(n: nat)
    ensures Valid(Ticks(Start(), n))
  {
    if n > 0 {
      ReachableIsValid(n - 1);
    }
  }
}
