/** The queue worker around one process_video message: delivery, dispatch, archive, deferral. While the lease
  * excludes other workers (see Lease), deliveries of a message follow one another. */
module Worker {
  import opened Common
  import opened Text
  import opened Workflow
  import opened Pipeline
  import opened Reuse

  datatype Final = JobCompleted | JobFailed | JobInvalid

  /** What the message and the rows it names look like when it is read. */
  datatype Delivery = Delivery(validJobId: bool, matchesHandoff: bool, knownVersion: bool, taskExists: bool,
                               workloadAllowed: bool) {
    predicate Executable() {
      validJobId && matchesHandoff && knownVersion && taskExists && workloadAllowed
    }
  }

  /** How dispatch ends; `Permanent` stands for PermanentJobError and NonRetryableJobError. */
  datatype Result = Finished | Permanent(message: string) | Exception(message: string)

  /** How a delivery ends: properly, with the lease lost, or with a failed call outside the job itself. */
  datatype End = Settled | LeaseLost | Crashed

  function Pow2(n: nat): nat {
    if n == 0 then 1 else 2 * Pow2(n - 1)
  }

  function RetryDelay(readCount: nat): int {
    Min(30 * Pow2(Max(readCount - 1, 0)), 300)
  }

  predicate Terminal(s: Status) {
    s == Completed || s == Error
  }

  /** The message, its task, and the seconds it has been deferred for in all. */
  datatype JobState = JobState(
    status: Status,
    outputs: seq<Output>,
    readCount: nat,
    visibleAt: int,
    archived: Option<Final>,
    deferred: int)

  class TaskWorker {
    const db: TaskDb
    const visibility: nat
    const maxAttempts: nat
    var readCount: nat
    var visibleAt: int
    var archived: Option<Final>
    ghost var deferred: int

    constructor (db: TaskDb, visibility: nat, maxAttempts: nat, readCount: nat, visibleAt: int)
      ensures this.db == db && this.visibility == visibility && this.maxAttempts == maxAttempts
      ensures Job() == JobState(db.status, db.outputs, readCount, visibleAt, None, 0)
    {
      this.db, this.visibility, this.maxAttempts := db, visibility, maxAttempts;
      this.readCount, this.visibleAt, archived, deferred := readCount, visibleAt, None, 0;
    }

    ghost function Job(): JobState
      reads this, db
    {
      JobState(db.status, db.outputs, readCount, visibleAt, archived, deferred)
    }

    /** complete_queue_job and fail_invalid_queue_message. */
    method Archive(final: Final, fault: Fault) returns (ok: bool)
      requires archived.None?
      modifies this`archived
      ensures archived == if fault == Refused then None else Some(final)
      ensures ok <==> fault == Fine
    {
      if fault != Refused {
        archived := Some(final);
      }
      ok := fault == Fine;
    }

    method SetVisibility(now: int, seconds: int, fault: Fault) returns (ok: bool)
      modifies this`visibleAt, this`deferred
      ensures if fault == Refused then visibleAt == old(visibleAt) && deferred == old(deferred)
              else visibleAt == now + seconds && deferred == old(deferred) + seconds
      ensures ok <==> fault == Fine
    {
      if fault != Refused {
        visibleAt := now + seconds;
        deferred := deferred + seconds;
      }
      ok := fault == Fine;
    }

    method Dispatch(delivery: Delivery, world: World, judge: Judge) returns (result: Result)
      requires world.reusable.Some? ==> DistinctKeys(world.reusable.value)
      modifies db
      ensures old(db.status) == Completed ==> db.status == Completed && db.outputs == old(db.outputs)
      ensures result.Finished? ==> db.status == Completed
      ensures old(db.status) != Completed && db.status == Completed ==>
                (Complete(db.outputs, db.catalog, judge) <==> !world.Loses(old(db.outputs), db.catalog, judge))
      ensures world.calm && delivery.Executable()
              && (old(db.status) == Completed
                  || (world.Suffices(db.catalog, judge) && !CaptionError(old(db.error)))) ==>
                result == Finished
      ensures world.calm && delivery.Executable() && old(db.status) != Completed &&
              (CaptionError(old(db.error)) || (world.LacksCaptions() && NoPersistedScript(old(db.outputs)))) ==>
                result.Permanent?
    {
      if !delivery.knownVersion {
        return Permanent("Unsupported queue message version");
      }
      var lookup := AnyFault(world.calm);
      if lookup != Fine {
        return Exception("get_task");
      }
      if !delivery.taskExists || !delivery.workloadAllowed {
        return Permanent("Task cannot be executed");
      }
      if db.status == Completed {
        return Finished;
      }
      if CaptionError(db.error) {
        return Permanent(db.error);
      }
      var outcome := db.RunPipeline(world, judge);
      match outcome
      case Done => result := Finished;
      case Fatal(message) => result := Permanent(message);
      case Failed => result := Exception("Pipeline failed");
    }

    method FailAndArchive(message: string, calm: bool) returns (end: End)
      requires archived.None?
      modifies this`archived, db`status, db`error
      ensures old(db.status) == Completed ==> db.status == Completed
      ensures db.status == Completed ==> old(db.status) == Completed
      ensures archived.Some? ==> archived == Some(JobFailed) && Terminal(db.status)
      ensures end == Settled ==> archived == Some(JobFailed)
      ensures end != LeaseLost && (calm ==> end == Settled)
    {
      var mark := AnyFault(calm);
      var archive := AnyFault(calm);
      var ok := db.MarkFailedIfNotCompleted(message, mark);
      if !ok {
        return Crashed;
      }
      ok := Archive(JobFailed, archive);
      end := if ok then Settled else Crashed;
    }

    /** run_once and _process for a message that is there: `now` is when it is read, `later` when the job has ended. */
    method Process(now: int, later: int, delivery: Delivery, world: World, judge: Judge) returns (end: End)
      requires archived.None? && visibleAt <= now <= later
      requires world.reusable.Some? ==> DistinctKeys(world.reusable.value)
      modifies this, db
      ensures Delivered(old(Job()), Job(), Turn(end, later, world), Setup(maxAttempts, db.catalog, judge))
      ensures Verdict(old(db.status), old(db.error), old(db.outputs), delivery, world, db.catalog, judge, end, archived)
      ensures !delivery.validJobId || !delivery.matchesHandoff ==>
                db.status == old(db.status) && db.outputs == old(db.outputs)
    {
      readCount := readCount + 1;
      visibleAt := now + visibility;
      var check := AnyFault(world.calm);
      var archive := AnyFault(world.calm);
      if check != Fine && delivery.validJobId {
        return Crashed;
      }
      if !delivery.validJobId || !delivery.matchesHandoff {
        var ok := Archive(JobInvalid, archive);
        return if ok then Settled else Crashed;
      }
      var result := Dispatch(delivery, world, judge);
      var lost := Cancelled(world.calm);
      if lost {
        return LeaseLost;
      }
      // the last heartbeat is awaited after the job has ended; its error takes the place of the job's result
      var heartbeatFails := Cancelled(world.calm);
      if heartbeatFails {
        result := Exception("set_visibility");
      }
      match result {
        case Finished =>
          var ok := Archive(JobCompleted, archive);
          end := if ok then Settled else Crashed;
        case Permanent(message) =>
          end := FailAndArchive(message, world.calm);
        case Exception(message) =>
          if readCount >= maxAttempts {
            end := FailAndArchive(message, world.calm);
          } else {
            var ok := SetVisibility(later, RetryDelay(readCount), archive);
            end := if ok then Settled else LeaseLost;
          }
      }
    }
  }

  /** How an undisturbed delivery ends. */
  predicate Verdict(status: Status, error: string, outputs: seq<Output>, delivery: Delivery, world: World,
                    catalog: bool, judge: Judge, end: End, archived: Option<Final>)
  {
    world.calm ==>
      && end == Settled
      && (!delivery.validJobId || !delivery.matchesHandoff ==> archived == Some(JobInvalid))
      && (delivery.Executable() ==>
            && (status == Completed ==> archived == Some(JobCompleted))
            && (world.Suffices(catalog, judge) && !CaptionError(error) ==> archived == Some(JobCompleted))
            && (status != Completed && CaptionError(error) ==> archived == Some(JobFailed))
            && (status != Completed && world.LacksCaptions() && NoPersistedScript(outputs) ==>
                 archived == Some(JobFailed)))
  }

  /** What stays the same over all deliveries of a message. */
  datatype Setup = Setup(maxAttempts: nat, catalog: bool, judge: Judge)

  /** One delivery: how and when it ended, and what the outside world answered. */
  datatype Turn = Turn(end: End, later: int, world: World)

  /** What one delivery may do to a message and its task. */
  ghost predicate Delivered(s: JobState, s': JobState, turn: Turn, setup: Setup) {
    && s.archived.None? && s'.readCount == s.readCount + 1
    // a completed task is final, and it has all it owes, except exactly where reusing outputs leaves some out
    && (s.status == Completed ==> s'.status == Completed && s'.outputs == s.outputs)
    && (s.status != Completed && s'.status == Completed ==>
          (Complete(s'.outputs, setup.catalog, setup.judge) <==>
            !turn.world.Loses(s.outputs, setup.catalog, setup.judge)))
    // the archive tells the truth about the task
    && (s'.archived == Some(JobCompleted) ==> s'.status == Completed)
    && (s'.archived == Some(JobFailed) ==> Terminal(s'.status))
    // a proper end archives the message or defers it; only attempts that are left are deferred to, however it ends
    && (turn.end == Settled && s'.archived.None? ==>
          && s'.readCount < setup.maxAttempts && s'.visibleAt == turn.later + RetryDelay(s'.readCount)
          && s'.deferred == s.deferred + RetryDelay(s'.readCount))
    && (s'.deferred == s.deferred ||
        (s'.archived.None? && s'.readCount < setup.maxAttempts && s'.deferred == s.deferred + RetryDelay(s'.readCount)))
  }

  // ----- Whole histories -----

  /** The deliveries of one message, one after the other. */
  ghost predicate Deliveries(states: seq<JobState>, turns: seq<Turn>, setup: Setup) {
    && |states| == |turns| + 1
    && states[0].archived.None? && states[0].readCount == 0 && states[0].deferred == 0
    && forall i :: 0 <= i < |turns| ==> Delivered(states[i], states[i + 1], turns[i], setup)
  }

  /** Completed once, completed for good, with the same outputs. */
  lemma {:induction false} CompletedIsFinal(states: seq<JobState>, turns: seq<Turn>, setup: Setup, i: nat)
    requires Deliveries(states, turns, setup) && i < |states| && states[i].status == Completed
    ensures states[|turns|].status == Completed && states[|turns|].outputs == states[i].outputs
  {
    if i < |turns| {
      var n := |turns| - 1;
      CompletedIsFinal(states[..n + 1], turns[..n], setup, i);
      assert Delivered(states[n], states[n + 1], turns[n], setup);
    }
  }

  /** Turn `i` completed the task. */
  predicate Completes(states: seq<JobState>, i: nat)
    requires i + 1 < |states|
  {
    states[i].status != Completed && states[i + 1].status == Completed
  }

  lemma {:induction false} CompletedSomewhere(states: seq<JobState>, turns: seq<Turn>, setup: Setup) returns (i: nat)
    requires Deliveries(states, turns, setup) && states[0].status != Completed && states[|turns|].status == Completed
    ensures i < |turns| && Completes(states, i)
  {
    var n := |turns| - 1;
    if states[n].status != Completed {
      i := n;
    } else {
      i := CompletedSomewhere(states[..n + 1], turns[..n], setup);
    }
  }

  /** A message archived as completed, starting from a task that was not, has its task completed in one of its
    * turns, with a script and valid summaries, except exactly where that turn met the case in which reusing
    * outputs leaves some out. One archived as failed has its task in a terminal state. */
  lemma ArchiveIsTruthful(states: seq<JobState>, turns: seq<Turn>, setup: Setup)
    requires Deliveries(states, turns, setup) && states[0].status != Completed
    ensures states[|turns|].archived == Some(JobCompleted) ==> states[|turns|].status == Completed
    ensures states[|turns|].status == Completed ==>
              exists i: nat ::
                i < |turns| && Completes(states, i)
                && (Complete(states[|turns|].outputs, setup.catalog, setup.judge) <==>
                     !turns[i].world.Loses(states[i].outputs, setup.catalog, setup.judge))
    ensures states[|turns|].archived == Some(JobFailed) ==> Terminal(states[|turns|].status)
  {
    if turns != [] {
      var n := |turns| - 1;
      assert Delivered(states[n], states[n + 1], turns[n], setup);
      if states[|turns|].status == Completed {
        var i := CompletedSomewhere(states, turns, setup);
        assert Delivered(states[i], states[i + 1], turns[i], setup);
        CompletedIsFinal(states, turns, setup, i + 1);
      }
    }
  }

  /** The seconds between `n` deliveries that all end in a deferral. */
  function TotalDelay(n: nat): int {
    if n == 0 then 0 else TotalDelay(n - 1) + RetryDelay(n)
  }

  lemma {:induction false} ReadCounts(states: seq<JobState>, turns: seq<Turn>, setup: Setup)
    requires Deliveries(states, turns, setup)
    ensures states[|turns|].readCount == |turns|
  {
    if turns != [] {
      var n := |turns| - 1;
      ReadCounts(states[..n + 1], turns[..n], setup);
      assert Delivered(states[n], states[n + 1], turns[n], setup);
    }
  }

  /** Whatever ended the earlier deliveries, the first one at or past the last attempt that ends properly archives
    * the message. If all end properly, the deferrals add up exactly. */
  lemma {:induction false} DeliveriesEnd(states: seq<JobState>, turns: seq<Turn>, setup: Setup)
    requires Deliveries(states, turns, setup) && setup.maxAttempts > 0
    ensures forall i :: setup.maxAttempts - 1 <= i < |turns| && turns[i].end == Settled ==>
              i == |turns| - 1 && states[|turns|].archived.Some?
    ensures (forall i :: 0 <= i < |turns| ==> turns[i].end == Settled) ==>
              && |turns| <= setup.maxAttempts
              && states[|turns|].deferred == TotalDelay(if states[|turns|].archived.Some? then |turns| - 1 else |turns|)
  {
    if turns != [] {
      var n := |turns| - 1;
      DeliveriesEnd(states[..n + 1], turns[..n], setup);
      ReadCounts(states[..n + 1], turns[..n], setup);
      assert Delivered(states[n], states[n + 1], turns[n], setup);
      assert n >= setup.maxAttempts ==> turns[..n][setup.maxAttempts - 1] == turns[setup.maxAttempts - 1];
    }
  }

  lemma {:induction false} Pow2Grows(n: nat)
    ensures Pow2(n) >= 1 && (n >= 4 ==> Pow2(n) >= 16)
  {
    if n > 0 {
      Pow2Grows(n - 1);
      if n == 4 {
        assert Pow2(1) == 2 && Pow2(2) == 4 && Pow2(3) == 8;
      }
    }
  }

  /** 30, 60, 120, 240 and then 300 seconds each. */
  lemma {:induction false} TotalDelayIs(n: nat)
    ensures n >= 4 ==> TotalDelay(n) == 450 + 300 * (n - 4)
    ensures TotalDelay(0) == 0 && TotalDelay(1) == 30 && TotalDelay(2) == 90 && TotalDelay(3) == 210
  {
    assert Pow2(0) == 1 && Pow2(1) == 2 && Pow2(2) == 4 && Pow2(3) == 8;
    assert RetryDelay(1) == 30 && RetryDelay(2) == 60 && RetryDelay(3) == 120 && RetryDelay(4) == 240;
    if n == 4 {
      assert TotalDelay(4) == TotalDelay(3) + 240;
    }
    if n > 4 {
      TotalDelayIs(n - 1);
      Pow2Grows(n - 1);
    }
  }

  /** Every message is deferred for a bounded time in all, whatever crashes and lost leases there are. */
  lemma {:induction false} DeferralIsBounded(states: seq<JobState>, turns: seq<Turn>, setup: Setup)
    requires Deliveries(states, turns, setup) && setup.maxAttempts > 0
    ensures 0 <= states[|turns|].deferred <= TotalDelay(Min(|turns|, setup.maxAttempts - 1))
  {
    if turns != [] {
      var n := |turns| - 1;
      DeferralIsBounded(states[..n + 1], turns[..n], setup);
      ReadCounts(states[..n + 1], turns[..n], setup);
      assert Delivered(states[n], states[n + 1], turns[n], setup);
      TotalDelayGrows(Min(n, setup.maxAttempts - 1), Min(n + 1, setup.maxAttempts - 1));
      Pow2Grows(n);
    }
  }

  lemma {:induction false} TotalDelayGrows(m: nat, n: nat)
    requires m <= n
    ensures TotalDelay(m) <= TotalDelay(n)
  {
    if m < n {
      TotalDelayGrows(m, n - 1);
      Pow2Grows(Max(n - 1, 0));
    }
  }
}
