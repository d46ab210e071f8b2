/** Several workers and the status of one task: interleaved executions under the message's lease. */
module Finality {
  import opened Common
  import opened Lease
  import opened Workflow

  /** `entered` are the workers whose dispatch found the task not completed and whose pipeline still runs. */
  datatype System = System(lease: Lease.State, status: Status, entered: set<nat>)

  /** What a worker does: a step of the lease, the completed check of dispatch, a progress write, the final
    * write of cleanup, and the guarded failure mark after the run. */
  datatype Action =
    Leasing(e: Lease.Event) | Enter(w: nat) | Progress(w: nat) | Finish(w: nat, ok: bool) | MarkFailed(w: nat)

  predicate CanDo(s: System, a: Action, t: Timing) {
    match a
    case Leasing(e) => Lease.Enabled(s.lease, e, t)
    case Enter(w) => PhaseOf(s.lease, w).Running? && s.status != Completed
    case Progress(w) => PhaseOf(s.lease, w).Running? && w in s.entered
    case Finish(w, _) => PhaseOf(s.lease, w).Running? && w in s.entered
    case MarkFailed(w) => PhaseOf(s.lease, w).Closing?
  }

  function Do(s: System, a: Action, t: Timing): System
    requires CanDo(s, a, t)
  {
    match a
    case Leasing(e) => System(Lease.Next(s.lease, e, t), s.status,
                              if e.Read? || e.Stop? || e.Abandon? then s.entered - {e.w} else s.entered)
    case Enter(w) => s.(entered := s.entered + {w})
    case Progress(w) => s.(status := Processing)
    case Finish(w, ok) => s.(status := if ok then Completed else Error, entered := s.entered - {w})
    case MarkFailed(w) => s.(status := if s.status == Completed then Completed else Error)
  }

  ghost predicate IsHistory(states: seq<System>, actions: seq<Action>, t: Timing) {
    && |states| == |actions| + 1 && Lease.Initial(states[0].lease) && states[0].entered == {}
    && forall i ::
         0 <= i < |actions| ==> CanDo(states[i], actions[i], t) && states[i + 1] == Do(states[i], actions[i], t)
  }

  /** Only a running worker is in its pipeline, and none is while the task is completed. */
  ghost predicate Sound(s: System, t: Timing) {
    && Safe(s.lease, t)
    && (forall w :: w in s.entered ==> PhaseOf(s.lease, w).Running?)
    && (s.status == Completed ==> s.entered == {})
  }

  lemma SoundNext(s: System, a: Action, t: Timing)
    requires t.Valid() && t.Gap() + t.closing < t.visibility
    requires Sound(s, t) && CanDo(s, a, t)
    ensures Sound(Do(s, a, t), t)
  {
    var s' := Do(s, a, t);
    match a
    case Leasing(e) =>
      SafeNext(s.lease, e, t);
      forall w | w in s'.entered
        ensures PhaseOf(s'.lease, w).Running?
      {
        assert PhaseOf(s.lease, w).Running?;
      }
    case Finish(w, ok) =>
      forall v | v in s.entered
        ensures v == w
      {
        assert !PhaseOf(s.lease, v).Idle? && !PhaseOf(s.lease, w).Idle?;
      }
    case _ =>
  }

  // ----- Leases that do not exclude closing workers -----

  /** Nobody can read the message before the running worker's next renewal is overdue. */
  predicate Guarded(p: Phase, s: Lease.State, t: Timing)
    requires p.Running?
  {
    p.last <= s.now && Due(p, s.now, t) && (s.archived || s.visibleAt > p.last + t.Gap())
  }

  /** There is one running worker at most, though others may still be closing. */
  ghost predicate OneRuns(s: System, t: Timing) {
    && (forall v, w :: PhaseOf(s.lease, v).Running? && PhaseOf(s.lease, w).Running? ==> v == w)
    && (forall w :: PhaseOf(s.lease, w).Running? ==> Guarded(PhaseOf(s.lease, w), s.lease, t))
    && (forall w :: w in s.entered ==> PhaseOf(s.lease, w).Running?)
    && (s.status == Completed ==> s.entered == {})
  }

  /** A deferral by a worker that closes late is still too long to let anyone in. */
  lemma OneRunsNext(s: System, a: Action, t: Timing)
    requires t.Valid() && t.Gap() < t.visibility && t.Gap() < t.deferral
    requires OneRuns(s, t) && CanDo(s, a, t)
    ensures OneRuns(Do(s, a, t), t)
  {
    var s' := Do(s, a, t);
    if a.Leasing? && a.e.Read? {
      NoneRuns(s, t);
      forall w | PhaseOf(s'.lease, w).Running?
        ensures w == a.e.w
      {
        assert !PhaseOf(s.lease, w).Running?;
      }
    } else {
      forall v, w | PhaseOf(s'.lease, v).Running? && PhaseOf(s'.lease, w).Running?
        ensures v == w
      {
        assert PhaseOf(s.lease, v).Running? && PhaseOf(s.lease, w).Running?;
      }
    }
    forall w | PhaseOf(s'.lease, w).Running?
      ensures Guarded(PhaseOf(s'.lease, w), s'.lease, t)
    {
      if PhaseOf(s.lease, w).Running? {
        assert Guarded(PhaseOf(s.lease, w), s.lease, t);
      }
    }
    forall w | w in s'.entered
      ensures PhaseOf(s'.lease, w).Running?
    {
      assert a.Enter? || w in s.entered;
    }
    if a.Finish? {
      assert forall v :: v in s.entered ==> PhaseOf(s.lease, v).Running?;
      assert s.entered == {a.w};
    }
  }

  lemma NoneRuns(s: System, t: Timing)
    requires OneRuns(s, t) && !s.lease.archived && s.lease.visibleAt <= s.lease.now
    ensures forall w :: !PhaseOf(s.lease, w).Running?
  {
    forall w
      ensures !PhaseOf(s.lease, w).Running?
    {
      assert PhaseOf(s.lease, w).Running? ==> Guarded(PhaseOf(s.lease, w), s.lease, t);
    }
  }

  // ----- Finality -----

  /** Renewals are in time, and either closing is in time too or deferrals outlast a renewal. */
  predicate Keeps(t: Timing) {
    t.Gap() < t.visibility && (t.Gap() + t.closing < t.visibility || t.Gap() < t.deferral)
  }

  ghost predicate InOrder(s: System, t: Timing) {
    if t.Gap() + t.closing < t.visibility then Sound(s, t) else OneRuns(s, t)
  }

  lemma InOrderNext(s: System, a: Action, t: Timing)
    requires t.Valid() && Keeps(t) && InOrder(s, t) && CanDo(s, a, t)
    ensures InOrder(Do(s, a, t), t)
    ensures s.status == Completed ==> Do(s, a, t).status == Completed
  {
    if t.Gap() + t.closing < t.visibility {
      SoundNext(s, a, t);
    } else {
      OneRunsNext(s, a, t);
    }
  }

  lemma {:induction false} HistoryIsInOrder(states: seq<System>, actions: seq<Action>, t: Timing)
    requires t.Valid() && Keeps(t) && IsHistory(states, actions, t)
    ensures InOrder(states[|actions|], t)
  {
    if actions != [] {
      var n := |actions| - 1;
      HistoryIsInOrder(states[..n + 1], actions[..n], t);
      InOrderNext(states[n], actions[n], t);
    }
  }

  /** A completed task stays completed, however the steps of the workers interleave. */
  lemma {:induction false} CompletedStays(states: seq<System>, actions: seq<Action>, t: Timing, i: nat)
    requires t.Valid() && Keeps(t) && IsHistory(states, actions, t)
    requires i < |states| && states[i].status == Completed
    ensures states[|actions|].status == Completed
  {
    if i < |actions| {
      var n := |actions| - 1;
      CompletedStays(states[..n + 1], actions[..n], t, i);
      HistoryIsInOrder(states[..n + 1], actions[..n], t);
      InOrderNext(states[n], actions[n], t);
    }
  }

  ghost predicate LosesCompletion(states: seq<System>, actions: seq<Action>, t: Timing) {
    && IsHistory(states, actions, t) && actions != []
    && states[|actions| - 1].status == Completed && states[|actions|].status == Error
  }

  const NOBODY := System(Lease.State(0.0, 0.0, false, map[]), Pending, {})

  /** If a renewal may come after the lease has run out, a slow worker can overwrite a completed task. */
  lemma LateRenewalLoses(t: Timing) returns (states: seq<System>, actions: seq<Action>)
    requires t.Valid() && t.Gap() >= t.visibility
    ensures LosesCompletion(states, actions, t)
  {
    actions :=
      [Leasing(Read(0)), Enter(0), Leasing(Wait(t.visibility)), Leasing(Read(1)), Enter(1), Finish(1, true),
       Finish(0, false)];
    var s1 := Do(NOBODY, actions[0], t);
    var s2 := Do(s1, actions[1], t);
    var s3 := Do(s2, actions[2], t);
    var s4 := Do(s3, actions[3], t);
    var s5 := Do(s4, actions[4], t);
    var s6 := Do(s5, actions[5], t);
    var s7 := Do(s6, actions[6], t);
    states := [NOBODY, s1, s2, s3, s4, s5, s6, s7];
  }

  lemma Extends(states: seq<System>, actions: seq<Action>, a: Action, t: Timing)
    requires IsHistory(states, actions, t) && CanDo(states[|actions|], a, t)
    ensures IsHistory(states + [Do(states[|actions|], a, t)], actions + [a], t)
  {
  }

  /** A worker that closes late finds the message already running elsewhere. */
  lemma LateClosing(t: Timing) returns (states: seq<System>, actions: seq<Action>)
    requires t.Valid() && t.Gap() + t.closing >= t.visibility
    ensures IsHistory(states, actions, t)
    ensures var close := t.Gap() + t.closing;
            states[|actions|] ==
              System(Lease.State(close, close + t.visibility, false,
                                 map[0 := Closing(0.0, t.Gap()), 1 := Running(close)]), Pending, {1})
  {
    var close := t.Gap() + t.closing;
    actions :=
      [Leasing(Read(0)), Leasing(Wait(t.Gap())), Leasing(Stop(0)), Leasing(Wait(close)), Leasing(Read(1)), Enter(1)];
    var s1 := Do(NOBODY, actions[0], t);
    var s2 := Do(s1, actions[1], t);
    var s3 := Do(s2, actions[2], t);
    var s4 := Do(s3, actions[3], t);
    var s5 := Do(s4, actions[4], t);
    var s6 := Do(s5, actions[5], t);
    states := [NOBODY, s1, s2, s3, s4, s5, s6];
  }

  /** If a worker may close after its lease has run out, its deferral can cut short the lease of the next one. */
  lemma LateClosingLoses(t: Timing) returns (states: seq<System>, actions: seq<Action>)
    requires t.Valid() && t.Gap() + t.closing >= t.visibility && t.deferral <= t.Gap()
    ensures LosesCompletion(states, actions, t)
  {
    var s, a := LateClosing(t);
    var s0 := s[|a|];
    var s1 := Do(s0, Leasing(Defer(0, t.deferral)), t);
    Extends(s, a, Leasing(Defer(0, t.deferral)), t);
    states, actions := TwoRun(s + [s1], a + [Leasing(Defer(0, t.deferral))], t);
  }

  /** Once the running worker's lease is cut short, a second one can enter and fail after the first is done. */
  lemma TwoRun(states: seq<System>, actions: seq<Action>, t: Timing)
    returns (states': seq<System>, actions': seq<Action>)
    requires t.Valid() && IsHistory(states, actions, t) && t.deferral <= t.Gap()
    requires var s, close := states[|actions|], t.Gap() + t.closing;
             s ==
               System(Lease.State(close, close + t.deferral, false, map[0 := Idle, 1 := Running(close)]), Pending, {1})
    ensures LosesCompletion(states', actions', t)
  {
    var s0, close := states[|actions|], t.Gap() + t.closing;
    var s1 := Do(s0, Leasing(Wait(close + t.deferral)), t);
    var s2 := Do(s1, Leasing(Read(2)), t);
    var s3 := Do(s2, Enter(2), t);
    var s4 := Do(s3, Finish(1, true), t);
    var s5 := Do(s4, Finish(2, false), t);
    var more := [Leasing(Wait(close + t.deferral)), Leasing(Read(2)), Enter(2), Finish(1, true), Finish(2, false)];
    states', actions' := states + [s1, s2, s3, s4, s5], actions + more;
  }

  ghost predicate StaysCompleted(states: seq<System>) {
    forall i, j :: 0 <= i <= j < |states| && states[i].status == Completed ==> states[j].status == Completed
  }

  ghost predicate AlwaysFinal(t: Timing) {
    forall states, actions :: IsHistory(states, actions, t) ==> StaysCompleted(states)
  }

  lemma NothingIsLost(states: seq<System>, actions: seq<Action>, t: Timing)
    requires t.Valid() && Keeps(t) && IsHistory(states, actions, t)
    ensures StaysCompleted(states)
  {
    forall i, j | 0 <= i <= j < |states| && states[i].status == Completed
      ensures states[j].status == Completed
    {
      CompletedStays(states[..j + 1], actions[..j], t, i);
    }
  }

  /** Completed is final in every history exactly when renewals are in time and either closing is in time too,
    * which makes leases exclusive, or no deferral is shorter than the gap between two renewals. */
  lemma FinalIff(t: Timing)
    requires t.Valid()
    ensures AlwaysFinal(t) <==> Keeps(t)
  {
    if Keeps(t) {
      forall states, actions | IsHistory(states, actions, t)
        ensures StaysCompleted(states)
      {
        NothingIsLost(states, actions, t);
      }
    } else {
      var states, actions;
      if t.Gap() >= t.visibility {
        states, actions := LateRenewalLoses(t);
      } else {
        states, actions := LateClosingLoses(t);
      }
      assert IsHistory(states, actions, t) && !StaysCompleted(states) by {
        assert states[|actions| - 1].status == Completed;
      }
    }
  }
}
