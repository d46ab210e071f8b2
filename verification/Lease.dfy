/** The visibility lease of one queue message, as a timed transition system over any number of workers. */
module Lease {
  import opened Common

  /** The lease length, the heartbeat interval, how late a renewal may take effect after it is due, how long a
    * worker may need from the end of its run to the archive or deferral that ends its hold, and the shortest
    * deferral there is. */
  datatype Timing = Timing(visibility: real, interval: real, latency: real, closing: real, deferral: real) {
    predicate Valid() {
      visibility > 0.0 && interval > 0.0 && latency >= 0.0 && closing >= 0.0 && deferral >= 0.0
    }

    /** The longest time between two renewals. */
    function Gap(): real {
      interval + latency
    }
  }

  /** `last` is when the lease was last taken or renewed by this worker. */
  datatype Phase = Idle | Running(last: real) | Closing(last: real, since: real)

  datatype State = State(now: real, visibleAt: real, archived: bool, workers: map<nat, Phase>)

  function PhaseOf(s: State, w: nat): Phase {
    if w in s.workers then s.workers[w] else Idle
  }

  predicate Due(p: Phase, now: real, t: Timing) {
    match p
    case Idle => true
    case Running(last) => now <= last + t.Gap()
    case Closing(_, since) => now <= since + t.closing
  }

  /** A worker that crashes abandons the message, which stays invisible until its lease runs out. */
  datatype Event =
    | Wait(until: real)
    | Read(w: nat)
    | Renew(w: nat)
    | Stop(w: nat)
    | Archive(w: nat)
    | Defer(w: nat, seconds: real)
    | Abandon(w: nat)

  predicate Enabled(s: State, e: Event, t: Timing) {
    match e
    case Wait(until) => s.now <= until && forall w :: w in s.workers ==> Due(s.workers[w], until, t)
    case Read(w) => !s.archived && s.visibleAt <= s.now && PhaseOf(s, w).Idle?
    case Renew(w) => !s.archived && PhaseOf(s, w).Running?
    case Stop(w) => PhaseOf(s, w).Running?
    case Archive(w) => PhaseOf(s, w).Closing?
    case Defer(w, seconds) => PhaseOf(s, w).Closing? && seconds >= t.deferral
    case Abandon(w) => !PhaseOf(s, w).Idle?
  }

  function Next(s: State, e: Event, t: Timing): State
    requires Enabled(s, e, t)
  {
    match e
    case Wait(until) => s.(now := until)
    case Read(w) => s.(visibleAt := s.now + t.visibility, workers := s.workers[w := Running(s.now)])
    case Renew(w) => s.(visibleAt := s.now + t.visibility, workers := s.workers[w := Running(s.now)])
    case Stop(w) => s.(workers := s.workers[w := Closing(PhaseOf(s, w).last, s.now)])
    case Archive(w) => s.(archived := true, workers := s.workers[w := Idle])
    case Defer(w, seconds) => s.(visibleAt := if s.archived then s.visibleAt else s.now + seconds,
                                 workers := s.workers[w := Idle])
    case Abandon(w) => s.(workers := s.workers[w := Idle])
  }

  predicate Initial(s: State) {
    !s.archived && s.workers == map[]
  }

  ghost predicate IsRun(states: seq<State>, events: seq<Event>, t: Timing) {
    && |states| == |events| + 1 && Initial(states[0])
    && forall i ::
         0 <= i < |events| ==> Enabled(states[i], events[i], t) && states[i + 1] == Next(states[i], events[i], t)
  }

  /** No two workers execute the message at once. */
  ghost predicate Exclusive(s: State) {
    forall v, w :: !PhaseOf(s, v).Idle? && !PhaseOf(s, w).Idle? ==> v == w
  }

  /** Whoever holds the message holds it alone and its lease has not run out. */
  ghost predicate Safe(s: State, t: Timing) {
    && Exclusive(s)
    && forall w :: !PhaseOf(s, w).Idle? ==> Covered(PhaseOf(s, w), s, t)
  }

  predicate Covered(p: Phase, s: State, t: Timing)
    requires !p.Idle?
  {
    && !s.archived && s.visibleAt == p.last + t.visibility && Due(p, s.now, t)
    && (p.Closing? ==> p.since <= p.last + t.Gap())
  }

  lemma CoveredIsInvisible(p: Phase, s: State, t: Timing)
    requires !p.Idle? && Covered(p, s, t) && t.Gap() + t.closing < t.visibility && t.Valid()
    ensures s.visibleAt > s.now
  {
  }

  lemma SafeNext(s: State, e: Event, t: Timing)
    requires t.Valid() && t.Gap() + t.closing < t.visibility
    requires Safe(s, t) && Enabled(s, e, t)
    ensures Safe(Next(s, e, t), t)
  {
    var s' := Next(s, e, t);
    if e.Read? {
      forall w
        ensures PhaseOf(s, w).Idle?
      {
        if !PhaseOf(s, w).Idle? {
          CoveredIsInvisible(PhaseOf(s, w), s, t);
          assert false;
        }
      }
    }
    assert e.Read? ==> forall w :: PhaseOf(s, w).Idle?;
    forall v, w | !PhaseOf(s', v).Idle? && !PhaseOf(s', w).Idle?
      ensures v == w
    {
      if e.Read? {
        assert PhaseOf(s, v).Idle? && PhaseOf(s, w).Idle?;
        assert v == e.w && w == e.w;
      } else {
        assert !PhaseOf(s, v).Idle? && !PhaseOf(s, w).Idle?;
      }
    }
    forall w | !PhaseOf(s', w).Idle?
      ensures Covered(PhaseOf(s', w), s', t)
    {
      if !PhaseOf(s, w).Idle? {
        assert Covered(PhaseOf(s, w), s, t);
      }
    }
  }

  lemma {:induction false} RunIsSafe(states: seq<State>, events: seq<Event>, t: Timing)
    requires t.Valid() && t.Gap() + t.closing < t.visibility
    requires IsRun(states, events, t)
    ensures Safe(states[|events|], t)
  {
    if events != [] {
      var n := |events| - 1;
      RunIsSafe(states[..n + 1], events[..n], t);
      SafeNext(states[n], events[n], t);
    }
  }

  /** Two workers hold the message in the last state of a run that a slow renewal and a slow close allow. */
  lemma SlowRun(t: Timing) returns (states: seq<State>, events: seq<Event>)
    requires t.Valid() && t.Gap() + t.closing >= t.visibility
    ensures IsRun(states, events, t) && !Exclusive(states[|events|])
  {
    var stop := t.Gap();
    var close := stop + t.closing;
    var s0 := State(0.0, 0.0, false, map[]);
    events := [Read(0), Wait(stop), Stop(0), Wait(close), Read(1)];
    var s1 := Next(s0, events[0], t);
    var s2 := Next(s1, events[1], t);
    var s3 := Next(s2, events[2], t);
    var s4 := Next(s3, events[3], t);
    var s5 := Next(s4, events[4], t);
    states := [s0, s1, s2, s3, s4, s5];
    assert PhaseOf(s5, 0).Closing? && PhaseOf(s5, 1).Running?;
  }

  ghost predicate AlwaysExclusive(t: Timing) {
    forall states, events :: IsRun(states, events, t) ==> Exclusive(states[|events|])
  }

  /** Leases exclude exactly when a renewal that is as late as can be, followed by a close as slow as can be,
    * still ends inside the previous lease. The configuration check demands less: interval < visibility. */
  lemma ExclusionIff(t: Timing)
    requires t.Valid()
    ensures AlwaysExclusive(t) <==> t.Gap() + t.closing < t.visibility
  {
    if t.Gap() + t.closing < t.visibility {
      forall states, events | IsRun(states, events, t)
        ensures Exclusive(states[|events|])
      {
        RunIsSafe(states, events, t);
      }
    } else {
      var states, events := SlowRun(t);
    }
  }
}
