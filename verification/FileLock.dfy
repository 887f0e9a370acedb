/**
 * The deadline file lock (`rv-fs/src/file_lock.rs`) as a protocol.
 *
 * Any number of callers run `lock_exclusive_until` on one file at the same time. A caller
 * that finds the lock taken starts a helper thread, which blocks in the kernel, and the two
 * meet in a `Wait` cell under a mutex with a condition variable. One step is one OS lock
 * call, one critical section of the mutex, one wake-up or a passage of time, and the steps of
 * all threads interleave freely. The kernel's exclusive lock belongs to an open file, here a
 * `Handle`: on Unix the helper's handle is a duplicate of the caller's, on Windows it is the
 * file opened again. OS calls may fail at any time.
 */
module FileLock {
  import opened Prelude

  datatype Handle = Handle(caller: nat, reopened: bool)

  /** The shared cell between a caller and its helper. */
  datatype Wait = Pending | Locked(handle: Handle) | Failed | Abandoned

  datatype Caller =
    | Calling                   // before `try_lock`
    | AtCell                    // about to look into the cell
    | Blocked(notified: bool)   // in `wait_timeout`
    | Holding                   // returned `Ok(())`
    | TimedOut                  // returned `WouldBlock`
    | Refused                   // returned an OS error
    | Released                  // unlocked the file after `Ok(())`

  datatype Helper = NotSpawned | Locking | Got | LockFailed | Finished

  datatype Waiter = Waiter(deadline: int, reopens: bool, file: Handle, caller: Caller, helper: Helper, cell: Wait)

  datatype State = State(now: int, owner: Option<Handle>, waiters: seq<Waiter>)

  datatype Event =
    | Tick(passed: nat)
    | TryLock(i: nat, fails: bool)
    | HelperLocks(i: nat, fails: bool)
    | HelperReports(i: nat)
    | Look(i: nat)
    | Wake(i: nat)
    | Unlock(i: nat)

  // ----- the steps -----

  /** The handle the helper of waiter `i` locks. */
  function HelperHandle(i: nat, w: Waiter): Handle {
    Handle(i, w.reopens)
  }

  /** `ready.notify_all()` */
  function Notified(caller: Caller): Caller {
    if caller.Blocked? then Blocked(true) else caller
  }

  /** `file.try_lock()`, and the start of the helper when another handle has the lock. */
  function AfterTryLock(s: State, i: nat, w: Waiter, fails: bool): (Option<Handle>, Waiter) {
    if fails then (s.owner, w.(caller := Refused))
    else if s.owner.None? then (Some(w.file), w.(caller := Holding))
    else (s.owner, w.(caller := AtCell, helper := Locking, cell := Pending))
  }

  /** The helper's critical section, after its lock call. */
  function AfterReport(s: State, i: nat, w: Waiter): (Option<Handle>, Waiter) {
    var done := w.(helper := Finished, caller := Notified(w.caller));
    match (w.cell, w.helper)
    case (Abandoned, Got) => (None, done)
    case (Abandoned, _) => (s.owner, done)
    case (_, Got) => (s.owner, done.(cell := Locked(HelperHandle(i, w))))
    case (_, _) => (s.owner, done.(cell := Failed))
  }

  /** One turn of the caller's loop, from taking the cell's value to returning or waiting. */
  function AfterLook(s: State, w: Waiter): Waiter {
    match w.cell
    case Locked(handle) => w.(cell := Pending, file := handle, caller := Holding)
    case Failed => w.(cell := Pending, caller := Refused)
    case _ =>
      if s.now >= w.deadline then w.(cell := Abandoned, caller := TimedOut)
      else w.(cell := Pending, caller := Blocked(false))
  }

  function Put(s: State, i: nat, change: (Option<Handle>, Waiter)): State
    requires i < |s.waiters|
  {
    s.(owner := change.0, waiters := s.waiters[i := change.1])
  }

  predicate Enabled(s: State, e: Event) {
    match e
    case Tick(_) => true
    case TryLock(i, _) => i < |s.waiters| && s.waiters[i].caller.Calling?
    case HelperLocks(i, fails) => i < |s.waiters| && s.waiters[i].helper.Locking? && (fails || s.owner.None?)
    case HelperReports(i) => i < |s.waiters| && (s.waiters[i].helper.Got? || s.waiters[i].helper.LockFailed?)
    case Look(i) => i < |s.waiters| && s.waiters[i].caller.AtCell?
    case Wake(i) => i < |s.waiters| && s.waiters[i].caller.Blocked?
    case Unlock(i) => i < |s.waiters| && s.waiters[i].caller.Holding?
  }

  function Next(s: State, e: Event): State
    requires Enabled(s, e)
  {
    match e
    case Tick(passed) => s.(now := s.now + passed)
    case TryLock(i, fails) => Put(s, i, AfterTryLock(s, i, s.waiters[i], fails))
    case HelperLocks(i, fails) =>
      var w := s.waiters[i];
      if fails then Put(s, i, (s.owner, w.(helper := LockFailed)))
      else Put(s, i, (Some(HelperHandle(i, w)), w.(helper := Got)))
    case HelperReports(i) => Put(s, i, AfterReport(s, i, s.waiters[i]))
    case Look(i) => Put(s, i, (s.owner, AfterLook(s, s.waiters[i])))
    case Wake(i) => Put(s, i, (s.owner, s.waiters[i].(caller := AtCell)))
    case Unlock(i) => Put(s, i, (None, s.waiters[i].(caller := Released)))
  }

  ghost predicate Init(s: State) {
    && s.owner.None?
    && forall i: nat | i < |s.waiters| ::
         var w := s.waiters[i];
         w.file == Handle(i, false) && w.caller.Calling? && w.helper.NotSpawned? && w.cell.Pending?
  }

  /** Every state of `run` follows from the one before by some enabled step. */
  ghost predicate IsRun(run: seq<State>, events: seq<Event>) {
    && |run| == |events| + 1
    && Init(run[0])
    && forall k: nat | k < |events| :: Enabled(run[k], events[k]) && run[k + 1] == Next(run[k], events[k])
  }

  // ----- the invariant -----

  /** Waiter `i` answers for the lock under `handle`: as a holder, as its helper, or in the cell. */
  predicate Answers(i: nat, w: Waiter, handle: Handle) {
    || (w.caller.Holding? && w.file == handle)
    || (w.helper.Got? && HelperHandle(i, w) == handle)
    || w.cell == Locked(handle)
  }

  predicate Waiting(caller: Caller) {
    caller.AtCell? || caller.Blocked?
  }

  /** What holds of each waiter by itself. */
  predicate LocalInv(i: nat, w: Waiter) {
    && w.file.caller == i
    && (w.helper.NotSpawned? ==> w.cell.Pending? && !Waiting(w.caller) && !w.caller.TimedOut?)
    && (w.caller.Calling? ==> w.helper.NotSpawned?)
    && (w.caller.Holding? || w.caller.Released? || w.caller.Refused? ==>
          w.cell.Pending? && (w.helper.NotSpawned? || w.helper.Finished?))
    && (w.cell.Abandoned? <==> w.caller.TimedOut?)
    // A result in the cell comes from a finished helper and is for a caller that will look.
    && (w.cell.Locked? ==> w.cell.handle == HelperHandle(i, w))
    && (w.cell.Locked? || w.cell.Failed? ==> w.helper.Finished? && Waiting(w.caller))
    && (Waiting(w.caller) && w.helper.Finished? ==> w.cell.Locked? || w.cell.Failed?)
    // A caller is asleep without a pending notification only while its helper still works.
    && (w.caller == Blocked(false) ==> !w.helper.Finished?)
  }

  /** The kernel's owner is exactly the handle some waiter answers for. */
  ghost predicate Inv(s: State) {
    && (forall i: nat | i < |s.waiters| :: LocalInv(i, s.waiters[i]))
    && (s.owner.Some? ==>
          s.owner.value.caller < |s.waiters|
            && Answers(s.owner.value.caller, s.waiters[s.owner.value.caller], s.owner.value))
    && (forall i: nat, handle | i < |s.waiters| && Answers(i, s.waiters[i], handle) :: s.owner == Some(handle))
  }

  lemma StepKeepsInv(s: State, e: Event)
    requires Inv(s) && Enabled(s, e)
    ensures Inv(Next(s, e))
  {
    if !e.Tick? {
      var t := Next(s, e);
      forall j: nat | j < |t.waiters| ensures LocalInv(j, t.waiters[j]) {
        assert LocalInv(j, s.waiters[j]);
      }
      forall j: nat, handle | j < |t.waiters| && Answers(j, t.waiters[j], handle) ensures t.owner == Some(handle) {
        assert LocalInv(j, s.waiters[j]);
        AnswersAfter(s, e, j, handle);
      }
    }
  }

  lemma OneAnswers(s: State, i: nat, a: Handle, j: nat, b: Handle)
    requires Inv(s) && i < |s.waiters| && j < |s.waiters|
    ensures Answers(i, s.waiters[i], a) && Answers(j, s.waiters[j], b) ==> i == j && a == b && s.owner == Some(a)
  {
    assert LocalInv(i, s.waiters[i]) && LocalInv(j, s.waiters[j]);
    if Answers(i, s.waiters[i], a) && Answers(j, s.waiters[j], b) {
      assert s.owner == Some(a);
      assert s.owner == Some(b);
    }
  }

  /** Whoever answers after a step answered before it, unless the step took the free lock. */
  lemma AnswersAfter(s: State, e: Event, j: nat, handle: Handle)
    requires Inv(s) && Enabled(s, e) && !e.Tick? && j < |s.waiters|
    requires Answers(j, Next(s, e).waiters[j], handle)
    ensures Next(s, e).owner == Some(handle)
  {
    var before, after := s.waiters[j], Next(s, e).waiters[j];
    assert LocalInv(j, before) && LocalInv(e.i, s.waiters[e.i]);
    OneAnswers(s, j, handle, e.i, s.waiters[e.i].file);
    OneAnswers(s, j, handle, e.i, HelperHandle(e.i, s.waiters[e.i]));
    if !Answers(j, before, handle) {
      assert e.i == j && (e.TryLock? || e.HelperLocks?);
    }
  }

  lemma {:induction false} InvAlways(run: seq<State>, events: seq<Event>, k: nat)
    requires IsRun(run, events) && k < |run|
    ensures Inv(run[k])
  {
    if k > 0 {
      InvAlways(run, events, k - 1);
      StepKeepsInv(run[k - 1], events[k - 1]);
    }
  }

  // ----- what every run keeps -----

  /** Two callers never hold the lock at once, and one that got `Ok(())` has it under its file. */
  lemma HoldersExclude(run: seq<State>, events: seq<Event>, k: nat, i: nat, j: nat)
    requires IsRun(run, events) && k < |run|
    requires i < |run[k].waiters| && run[k].waiters[i].caller.Holding?
    ensures run[k].owner == Some(run[k].waiters[i].file)
    ensures j < |run[k].waiters| && run[k].waiters[j].caller.Holding? ==> i == j
  {
    InvAlways(run, events, k);
    var s := run[k];
    var other := if j < |s.waiters| then j else i;
    OneAnswers(s, i, s.waiters[i].file, other, s.waiters[other].file);
    OneAnswers(s, i, s.waiters[i].file, i, s.waiters[i].file);
  }

  /** A caller that gave up and whose helper is through owns nothing: the lock is not orphaned. */
  lemma NothingLeftBehind(run: seq<State>, events: seq<Event>, k: nat, i: nat)
    requires IsRun(run, events) && k < |run| && i < |run[k].waiters|
    requires !Waiting(run[k].waiters[i].caller) && !run[k].waiters[i].caller.Holding?
    requires run[k].waiters[i].helper.Finished? || run[k].waiters[i].helper.NotSpawned?
    ensures run[k].owner.Some? ==> run[k].owner.value.caller != i
  {
    InvAlways(run, events, k);
    assert LocalInv(i, run[k].waiters[i]);
  }

  /** No hand-off is lost: a result in the cell always reaches a caller that is awake or woken. */
  lemma HandOffIsSeen(run: seq<State>, events: seq<Event>, k: nat, i: nat)
    requires IsRun(run, events) && k < |run| && i < |run[k].waiters|
    ensures var w := run[k].waiters[i];
            && (w.cell.Locked? || w.cell.Failed? ==> w.caller == AtCell || w.caller == Blocked(true))
            && (w.cell.Locked? ==> run[k].owner == Some(w.cell.handle))
            && (Waiting(w.caller) && w.helper.Finished? ==> w.cell.Locked? || w.cell.Failed?)
  {
    InvAlways(run, events, k);
    var w := run[k].waiters[i];
    assert LocalInv(i, w);
    if w.cell.Locked? {
      assert Answers(i, w, w.cell.handle);
    }
  }

  /**
   * What a caller does that looks into the cell: it returns with the lock or the error its helper
   * left there, it times out when there is neither and the deadline has come, and waits on before.
   */
  lemma LookMeans(run: seq<State>, events: seq<Event>, k: nat)
    requires IsRun(run, events) && k < |events| && events[k].Look?
    ensures var before, after := run[k].waiters[events[k].i], run[k + 1].waiters[events[k].i];
            && (after.caller.Holding? <==> before.cell.Locked?)
            && (after.caller.Refused? <==> before.cell.Failed?)
            && (after.caller.TimedOut? <==> before.cell.Pending? && run[k].now >= before.deadline)
            && (after.caller == Blocked(false) <==> before.cell.Pending? && run[k].now < before.deadline)
            && after.helper == before.helper && after.deadline == before.deadline
            && run[k + 1].owner == run[k].owner
  {
    InvAlways(run, events, k);
    assert LocalInv(events[k].i, run[k].waiters[events[k].i]);
  }

  /** Past its deadline a caller that looks into the cell returns, whatever the holder does. */
  lemma DeadlineEndsTheWait(run: seq<State>, events: seq<Event>, k: nat)
    requires IsRun(run, events) && k < |events| && events[k].Look?
    requires run[k].now >= run[k].waiters[events[k].i].deadline
    ensures var i := events[k].i;
            var after := run[k + 1].waiters[i];
            && !Waiting(after.caller)
            && (after.caller.Holding? <==> run[k].waiters[i].cell.Locked?)
            && (after.caller.TimedOut? <==> run[k].waiters[i].cell.Pending?)
  {
    LookMeans(run, events, k);
    InvAlways(run, events, k);
    assert LocalInv(events[k].i, run[k].waiters[events[k].i]);
  }

  /** In every run a caller that timed out has waited until its deadline. */
  lemma {:induction false} TimedOutIsLate(run: seq<State>, events: seq<Event>, k: nat, i: nat)
    requires IsRun(run, events) && k < |run| && i < |run[k].waiters|
    ensures |run[k].waiters| == |run[0].waiters| && run[k].waiters[i].deadline == run[0].waiters[i].deadline
    ensures run[k].waiters[i].caller.TimedOut? ==> run[k].waiters[i].deadline <= run[k].now
  {
    if k > 0 {
      TimedOutIsLate(run, events, k - 1, i);
    }
  }

  /** A free lock is taken at once, deadline or not; a taken one is waited for with a helper. */
  lemma FreeLockIsTaken(run: seq<State>, events: seq<Event>, k: nat)
    requires IsRun(run, events) && k < |events| && events[k].TryLock? && !events[k].fails
    ensures var after := run[k + 1].waiters[events[k].i];
            if run[k].owner.None? then after.caller.Holding? && after.helper.NotSpawned?
            else after.caller.AtCell? && after.helper.Locking?
  {
    InvAlways(run, events, k);
    assert LocalInv(events[k].i, run[k].waiters[events[k].i]);
  }

  /** What a helper reports to a caller that still waits is how its lock call went. */
  lemma ReportMeans(run: seq<State>, events: seq<Event>, k: nat)
    requires IsRun(run, events) && k < |events| && events[k].HelperReports?
    ensures var before, after := run[k].waiters[events[k].i], run[k + 1].waiters[events[k].i];
            && after.helper.Finished? && (Waiting(before.caller) || before.caller.TimedOut?)
            && (Waiting(before.caller) ==>
                  && Waiting(after.caller) && run[k + 1].owner == run[k].owner
                  && (after.cell.Locked? <==> before.helper.Got?)
                  && (after.cell.Failed? <==> before.helper.LockFailed?))
            && (before.caller.TimedOut? ==>
                  && after.caller.TimedOut?
                  && run[k + 1].owner == if before.helper.Got? then None else run[k].owner)
  {
    InvAlways(run, events, k);
    assert LocalInv(events[k].i, run[k].waiters[events[k].i]);
  }

  // ----- what a timeout means -----

  /** Event `m` is the `try_lock` of caller `i` that found the lock with another caller. */
  ghost predicate FoundTaken(run: seq<State>, events: seq<Event>, m: nat, i: nat)
    requires IsRun(run, events) && m < |events|
  {
    events[m] == TryLock(i, false) && run[m].owner.Some? && run[m].owner.value.caller != i
  }

  /** What a timeout does mean in every run: another caller had the lock when this one asked for it. */
  lemma {:induction false} TimedOutFoundTaken(run: seq<State>, events: seq<Event>, k: nat, i: nat)
    requires IsRun(run, events) && k < |run| && i < |run[k].waiters|
    ensures run[k].waiters[i].caller.TimedOut? ==> exists m: nat | m < k :: FoundTaken(run, events, m, i)
  {
    if !run[k].waiters[i].helper.NotSpawned? {
      var m := SpawnedFoundTaken(run, events, k, i);
    } else {
      InvAlways(run, events, k);
      assert LocalInv(i, run[k].waiters[i]);
    }
  }

  lemma {:induction false} SpawnedFoundTaken(run: seq<State>, events: seq<Event>, k: nat, i: nat) returns (m: nat)
    requires IsRun(run, events) && k < |run| && i < |run[k].waiters| && !run[k].waiters[i].helper.NotSpawned?
    ensures m < k && FoundTaken(run, events, m, i)
    decreases k
  {
    if !run[k - 1].waiters[i].helper.NotSpawned? {
      m := SpawnedFoundTaken(run, events, k - 1, i);
    } else {
      m := k - 1;
      InvAlways(run, events, m);
      assert LocalInv(i, run[m].waiters[i]);
    }
  }

  /** The last of the events from `m` on, before state `k`, that changed the owner. */
  function LastChange(run: seq<State>, m: nat, k: nat): (j: Option<nat>)
    requires m <= k < |run|
    ensures j.Some? ==> m <= j.value < k && run[j.value].owner != run[j.value + 1].owner == run[k].owner
    ensures j.None? ==> run[k].owner == run[m].owner
  {
    if k == m then None
    else if run[k - 1].owner != run[k].owner then Some(k - 1)
    else LastChange(run, m, k - 1)
  }

  predicate Acquires(e: Event) {
    e.TryLock? || e.HelperLocks?
  }

  /** A step that changes the owner gives the lock to its own caller's side, or frees it. */
  lemma ChangeMeans(run: seq<State>, events: seq<Event>, j: nat)
    requires IsRun(run, events) && j < |events| && run[j].owner != run[j + 1].owner
    ensures if Acquires(events[j]) then run[j + 1].owner.Some? && run[j + 1].owner.value.caller == events[j].i
            else run[j + 1].owner.None?
  {
    InvAlways(run, events, j);
    if !events[j].Tick? {
      assert LocalInv(events[j].i, run[j].waiters[events[j].i]);
    }
  }

  /**
   * The documentation says that a timeout means that another holder still has the lock. That is so
   * exactly when nobody took or released the lock since the caller found it taken, or the last to
   * do either is another caller that took it.
   */
  lemma TimeoutMeaning(run: seq<State>, events: seq<Event>, m: nat, k: nat)
    requires IsRun(run, events) && m < k < |events| && events[k].Look? && FoundTaken(run, events, m, events[k].i)
    requires run[k + 1].waiters[events[k].i].caller.TimedOut?
    ensures (run[k].owner.Some? && run[k].owner.value.caller != events[k].i) <==>
            match LastChange(run, m, k)
            case None => true
            case Some(j) => Acquires(events[j]) && events[j].i != events[k].i
  {
    var last := LastChange(run, m, k);
    if last.Some? {
      ChangeMeans(run, events, last.value);
    }
  }

  /** The lock can even be free when a caller times out: its helper was not yet woken. */
  lemma TimeoutOnFreeLock() returns (run: seq<State>, events: seq<Event>)
    ensures IsRun(run, events) && |events| == 4 && events[3] == Look(1)
    ensures run[3].owner.None? && |run[4].waiters| == 2 && run[4].waiters[1].caller.TimedOut?
  {
    var s0 := State(0, None, [Waiter(0, false, Handle(0, false), Calling, NotSpawned, Pending),
                              Waiter(0, false, Handle(1, false), Calling, NotSpawned, Pending)]);
    events := [TryLock(0, false), TryLock(1, false), Unlock(0), Look(1)];
    var s1 := Next(s0, events[0]);
    var s2 := Next(s1, events[1]);
    var s3 := Next(s2, events[2]);
    run := [s0, s1, s2, s3, Next(s3, events[3])];
  }

  /**
   * Whoever owns the lock can free it alone, without any other thread taking a step; the
   * helper of a caller that timed out does so in its very next step.
   */
  lemma {:induction false} OwnerCanFree(s: State) returns (events: seq<Event>)
    requires Inv(s) && s.owner.Some?
    ensures forall e | e in events :: !e.Tick? && e.i == s.owner.value.caller
    ensures Reaches(s, events) && End(s, events).owner.None?
    ensures |events| <= StepsToFree(s.waiters[s.owner.value.caller])
    decreases StepsToFree(s.waiters[s.owner.value.caller])
  {
    var i := s.owner.value.caller;
    var w := s.waiters[i];
    assert LocalInv(i, w);
    var e :=
      if w.caller.Holding? then Unlock(i)
      else if w.helper.Got? then HelperReports(i)
      else if w.caller.AtCell? then Look(i)
      else Wake(i);
    StepKeepsInv(s, e);
    if Next(s, e).owner.None? {
      events := [e];
      assert Reaches(Next(s, e), events[1..]);
    } else {
      var rest := OwnerCanFree(Next(s, e));
      events := [e] + rest;
      assert events[1..] == rest;
    }
  }

  /** How many steps of its own an answering waiter is from freeing the lock. */
  function StepsToFree(w: Waiter): nat {
    if w.caller.Holding? || (w.helper.Got? && w.caller.TimedOut?) then 1
    else (if w.caller.AtCell? then 2 else 3) + (if w.helper.Got? then 1 else 0)
  }

  predicate Reaches(s: State, events: seq<Event>)
    decreases |events|
  {
    events == [] || (Enabled(s, events[0]) && Reaches(Next(s, events[0]), events[1..]))
  }

  function End(s: State, events: seq<Event>): State
    requires Reaches(s, events)
    decreases |events|
  {
    if events == [] then s else End(Next(s, events[0]), events[1..])
  }
}
