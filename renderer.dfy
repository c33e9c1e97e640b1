/** The synchronous refresh driver (`singlethread`): an inactive/active
    switch that runs its render task on activation, on suspension, and on
    render requests spaced at least `ReflashRate` apart. The clock is an
    input: every time is a reading of the system clock in nanoseconds. */
module Renderer {

  /** `reflash_rate`: 35 microseconds, in nanoseconds. */
  const ReflashRate: int := 35 * 1000

  /** The renderer's state: `active_flag_` and `last_invoke_`. */
  datatype Sync = Sync(active: bool, lastInvoke: int)

  /** A state change, and whether the task ran during it. */
  datatype Step = Step(next: Sync, ran: bool)

  /** `active()`: an inactive renderer stamps the time, runs the task once
      and becomes active; an active one does nothing. */
  function Activated(s: Sync, now: int): (r: Step)
    ensures r.next.active
    ensures r.ran <==> !s.active
    ensures s.active ==> r.next == s
    ensures !s.active ==> r.next.lastInvoke == now
  {
    if s.active then Step(s, false) else Step(Sync(true, now), true)
  }

  /** `suspend()`: an active renderer runs the task once more and becomes
      inactive; an inactive one does nothing. The time stamp is kept. */
  function Suspended(s: Sync): (r: Step)
    ensures !r.next.active
    ensures r.ran <==> s.active
    ensures r.next.lastInvoke == s.lastInvoke
  {
    if !s.active then Step(s, false) else Step(s.(active := false), true)
  }

  /** `render()`: runs the task only when active and at least `ReflashRate`
      after the last run, and then stamps the time; otherwise nothing
      changes. It never switches the renderer on or off. */
  function Rendered(s: Sync, now: int): (r: Step)
    ensures r.next.active == s.active
    ensures r.ran <==> s.active && now - s.lastInvoke >= ReflashRate
    ensures r.next.lastInvoke == if r.ran then now else s.lastInvoke
  {
    if !s.active then Step(s, false)
    else if now - s.lastInvoke < ReflashRate then Step(s, false)
    else Step(s.(lastInvoke := now), true)
  }

  /** Activation is idempotent: a second `active()` neither runs the task
      nor changes anything, and `suspend()` after `active()` returns an
      inactive renderer to inactive, the task having run once each time. */
  lemma ActivateSuspendCycle(s: Sync, now: int)
    requires !s.active
    ensures Activated(Activated(s, now).next, now) == Step(Activated(s, now).next, false)
    ensures Activated(s, now).ran && Suspended(Activated(s, now).next).ran
    ensures Suspended(Activated(s, now).next).next == Sync(false, now)
  {
  }

  /** A run of `render()` requests at the given times: the final state and
      the times at which the task ran. */
  function RenderTrace(s: Sync, times: seq<int>): (Sync, seq<int>)
    decreases |times|
  {
    if times == [] then (s, [])
    else
      var st := Rendered(s, times[0]);
      var rest := RenderTrace(st.next, times[1..]);
      (rest.0, if st.ran then [times[0]] + rest.1 else rest.1)
  }

  /** Every run comes at least `ReflashRate` after the previous one, the
      first at least `ReflashRate` after `start`. */
  predicate Spaced(start: int, runs: seq<int>) {
    forall i :: 0 <= i < |runs| ==>
      runs[i] - (if i == 0 then start else runs[i - 1]) >= ReflashRate
  }

  /** One instance of `Spaced`. */
  lemma SpacedAt(start: int, runs: seq<int>, j: int)
    requires Spaced(start, runs) && 0 <= j < |runs|
    ensures runs[j] - (if j == 0 then start else runs[j - 1]) >= ReflashRate
  {
  }

  /** The rate limit: along any sequence of render requests, each run of
      the task comes at least `ReflashRate` after the previous one (the
      first after the time stamp it started from); renders never switch
      the renderer on or off, and an inactive renderer never runs. */
  lemma {:induction false} RenderRunsSpaced(s: Sync, times: seq<int>)
    decreases |times|
    ensures RenderTrace(s, times).0.active == s.active
    ensures !s.active ==> RenderTrace(s, times).1 == []
    ensures Spaced(s.lastInvoke, RenderTrace(s, times).1)
  {
    if times != [] {
      var st := Rendered(s, times[0]);
      RenderRunsSpaced(st.next, times[1..]);
      var rest := RenderTrace(st.next, times[1..]).1;
      if st.ran {
        var runs := [times[0]] + rest;
        assert RenderTrace(s, times).1 == runs;
        forall i | 0 <= i < |runs|
          ensures runs[i] - (if i == 0 then s.lastInvoke else runs[i - 1]) >= ReflashRate
        {
          if i == 0 {
            assert times[0] - s.lastInvoke >= ReflashRate;
          } else {
            assert runs[i] == rest[i - 1];
            assert runs[i - 1] == if i == 1 then st.next.lastInvoke else rest[i - 2];
            SpacedAt(st.next.lastInvoke, rest, i - 1);
          }
        }
      }
    }
  }

  /** `singlethread`: the state updated in place. The task it would run is
      the progress bar's render routine; each method reports whether it
      ran the task and the caller runs it. */
  class SingleThread {
    var active: bool
    var lastInvoke: int

    function State(): Sync
      reads this
    {
      Sync(active, lastInvoke)
    }

    /** A new renderer is inactive; the time stamp starts at the clock's
        epoch. */
    constructor ()
      ensures State() == Sync(false, 0)
    {
      active := false;
      lastInvoke := 0;
    }

    /** `active()`. */
    method Active(now: int) returns (ran: bool)
      modifies this
      ensures Step(State(), ran) == Activated(old(State()), now)
    {
      if active {
        return false;
      }
      lastInvoke := now;
      ran := true;
      active := true;
    }

    /** `suspend()`. */
    method Suspend() returns (ran: bool)
      modifies this
      ensures Step(State(), ran) == Suspended(old(State()))
    {
      if !active {
        return false;
      }
      ran := true;
      active := false;
    }

    /** `render()`. */
    method Render(now: int) returns (ran: bool)
      modifies this
      ensures Step(State(), ran) == Rendered(old(State()), now)
    {
      if !active {
        return false;
      }
      if now - lastInvoke < ReflashRate {
        return false;
      }
      lastInvoke := now;
      ran := true;
    }
  }
}
