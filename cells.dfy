/** The two stateful helpers: a lazily computed, clearable value and a
    stopwatch.  Each owns one mutable cell; `None` in a cell stands for
    JavaScript's `undefined`.  The clock is not read here: every operation
    that needs the time is given it. */
module Cells {
  import opened Types

  /** A value computed by the producer on first use and kept until cleared.
      The producer is not called from here: each use is given `current`, what
      the producer would yield if it ran now, so a producer whose result
      changes over time (such as the board's bounds) is covered.  A result
      of `None` (undefined) is stored as "not computed", so the next use
      runs the producer again. */
  class Memo<A> {
    var v: Option<A>
    /** How many times the producer has run. */
    ghost var runs: nat

    constructor ()
      ensures v == None && runs == 0
    {
      v := None;
      runs := 0;
    }

    /** The stored value, even if the producer would now yield another; the
        producer runs, yielding `current`, only when nothing is stored. */
    method Call(current: Option<A>) returns (r: Option<A>)
      modifies this
      ensures old(v).Some? ==> r == old(v) && v == old(v) && runs == old(runs)
      ensures old(v).None? ==> r == current && v == current && runs == old(runs) + 1
    {
      if v.None? {
        v := current;
        runs := runs + 1;
      }
      r := v;
    }

    /** Forgets the stored value, so that the next use recomputes it. */
    method Clear()
      modifies this
      ensures v == None && runs == old(runs)
    {
      v := None;
    }
  }

  /** A second use returns the value of the first even when the producer
      would now yield something else, and the producer runs once. */
  method MemoRunsOnce<A>(current1: Option<A>, current2: Option<A>) returns (first: Option<A>, second: Option<A>, ghost runs: nat)
    requires current1.Some?
    ensures first == current1 && second == current1 && runs == 1
  {
    var m := new Memo();
    first := m.Call(current1);
    second := m.Call(current2);
    runs := m.runs;
  }

  /** A use after `Clear` runs the producer again and returns its new value. */
  method MemoClearRecomputes<A>(current1: Option<A>, current2: Option<A>) returns (first: Option<A>, second: Option<A>, ghost runs: nat)
    requires current1.Some?
    ensures first == current1 && second == current2 && runs == 2
  {
    var m := new Memo();
    first := m.Call(current1);
    m.Clear();
    second := m.Call(current2);
    runs := m.runs;
  }

  /** A producer that yields `None` is run again on the next use. */
  method MemoUndefinedRecomputes<A>(current1: Option<A>, current2: Option<A>) returns (first: Option<A>, second: Option<A>, ghost runs: nat)
    requires current1.None?
    ensures first == None && second == current2 && runs == 2
  {
    var m := new Memo();
    first := m.Call(current1);
    second := m.Call(current2);
    runs := m.runs;
  }

  /** A stopwatch over one interval.  A start time of 0 reads as "not
      started", as the falsy test on the stored time does. */
  class Timer {
    var startAt: Option<real>

    constructor ()
      ensures startAt == None
    {
      startAt := None;
    }

    /** Records the current time `now`. */
    method Start(now: real)
      modifies this
      ensures startAt == Some(now)
    {
      startAt := Some(now);
    }

    /** Discards the recorded time. */
    method Cancel()
      modifies this
      ensures startAt == None
    {
      startAt := None;
    }

    /** The time elapsed since the recorded start, which is then discarded;
        0 with nothing recorded, or with 0 recorded, and then nothing changes. */
    method Stop(now: real) returns (elapsed: real)
      modifies this
      ensures old(startAt) == None || old(startAt) == Some(0.0) ==>
                elapsed == 0.0 && startAt == old(startAt)
      ensures old(startAt).Some? && old(startAt).value != 0.0 ==>
                elapsed == now - old(startAt).value && startAt == None
    {
      if startAt == None || startAt == Some(0.0) {
        return 0.0;
      }
      elapsed := now - startAt.value;
      startAt := None;
    }
  }

  /** Started at t0 (not 0) and stopped at t1, a timer measures t1 - t0;
      a second stop measures 0. */
  method TimerMeasures(t0: real, t1: real, t2: real) returns (first: real, second: real)
    requires t0 != 0.0
    ensures first == t1 - t0 && second == 0.0
  {
    var t := new Timer();
    t.Start(t0);
    first := t.Stop(t1);
    second := t.Stop(t2);
  }

  /** A timer that was never started, or was cancelled after its start, measures 0. */
  method TimerUnstarted(t0: real, t1: real, t2: real) returns (never: real, cancelled: real)
    ensures never == 0.0 && cancelled == 0.0
  {
    var t := new Timer();
    never := t.Stop(t1);
    t.Start(t0);
    t.Cancel();
    cancelled := t.Stop(t2);
  }

  /** A timer started at time 0 measures 0 however late it is stopped. */
  method TimerStartedAtZero(t1: real, t2: real) returns (first: real, second: real)
    ensures first == 0.0 && second == 0.0
  {
    var t := new Timer();
    t.Start(0.0);
    first := t.Stop(t1);
    second := t.Stop(t2);
  }
}
