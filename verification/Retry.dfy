/**
 * The retry rule of the HTTP clients (`rv-http/src/retry.rs`).
 *
 * Durations and instants are whole nanoseconds. What the source cannot choose is a parameter
 * of each step: the time that passes, the outcome of an attempt, the exponential backoff (an
 * arbitrary duration) and the jitter of a busy wait (at most half the wait's step). `Run` is
 * the loop of one request, against a server that any number of other requests change at every
 * `await`. The second half is the protocol: many requests over one cooldown, their steps
 * interleaved in every possible way.
 */
module Retry {
  import opened Prelude

  const SECOND: nat := 1_000_000_000
  const MAX_BUSY_WAIT: nat := 60 * SECOND
  const U32_MAX: nat := 0xFFFF_FFFF

  datatype Policy = Policy(retries: nat, budget: nat)

  datatype Outcome = Success | Permanent | Transient | Unresolved | Busy(retryAfter: Option<nat>)

  function Min(a: nat, b: nat): nat {
    if a < b then a else b
  }

  function Max(a: nat, b: nat): nat {
    if a < b then b else a
  }

  // ----- waits -----

  /** Five seconds times the number of the retry, which saturates at 32 bits. */
  function BusyStep(retries: nat): nat {
    5 * SECOND * Min(Min(retries, U32_MAX) + 1, U32_MAX)
  }

  function BusyWait(retries: nat, retryAfter: Option<nat>, jitter: nat): nat {
    Min(Max(BusyStep(retries) + jitter, if retryAfter.Some? then retryAfter.value else 0), MAX_BUSY_WAIT)
  }

  /** A busy wait is at least what the server and the retry's number ask for, and at most a minute. */
  lemma BusyWaitBounds(retries: nat, retryAfter: Option<nat>, jitter: nat)
    requires retryAfter.Some? ==> retryAfter.value <= MAX_BUSY_WAIT
    ensures var wait := BusyWait(retries, retryAfter, jitter);
            && (retryAfter.Some? ==> retryAfter.value <= wait)
            && Min(5 * SECOND * (retries + 1), MAX_BUSY_WAIT) <= wait <= MAX_BUSY_WAIT
            && (jitter <= BusyStep(retries) / 2 && retryAfter.None? ==> wait <= 5 * SECOND * (retries + 1) * 3 / 2)
    ensures var asked, wait := 5 * SECOND * (retries + 1) + jitter, BusyWait(retries, retryAfter, jitter);
            && (asked >= MAX_BUSY_WAIT ==> wait == MAX_BUSY_WAIT)
            && (asked < MAX_BUSY_WAIT && retryAfter.Some? && asked < retryAfter.value ==> wait == retryAfter.value)
            && (asked < MAX_BUSY_WAIT && (retryAfter.Some? ==> retryAfter.value <= asked) ==> wait == asked)
  {
    if retries + 1 > 12 {
      assert BusyStep(retries) >= MAX_BUSY_WAIT;
    }
  }

  // ----- what follows one attempt -----

  datatype Decision = Stop(ok: bool) | Wait(wait: nat, busy: bool)

  /** The shared flag after an attempt: two failed lookups in a row set it, any other outcome clears it. */
  function FlagAfter(unresolvable: bool, outcome: Outcome, failedBefore: bool): bool {
    outcome.Unresolved? && (failedBefore || unresolvable)
  }

  function Decide(policy: Policy, retries: nat, waited: nat, unresolvable: bool, failedBefore: bool,
                  outcome: Outcome, jitter: nat, backoff: nat): Decision
  {
    if outcome.Success? then Stop(true)
    else if outcome.Permanent? then Stop(false)
    else if outcome.Unresolved? && (failedBefore || FlagAfter(unresolvable, outcome, failedBefore)) then Stop(false)
    else if retries >= policy.retries then Stop(false)
    else if outcome.Busy? && outcome.retryAfter.Some? && outcome.retryAfter.value > MAX_BUSY_WAIT then Stop(false)
    else
      var wait := if outcome.Busy? then BusyWait(retries, outcome.retryAfter, jitter) else backoff;
      if waited + wait <= policy.budget then Wait(wait, outcome.Busy?) else Stop(false)
  }

  /** Instants only move the hold forward. */
  function Raised(until: Option<int>, instant: int): (r: Option<int>)
    ensures r.Some? && r.value >= instant && NotEarlier(until, r)
    ensures r == until || r == Some(instant)
  {
    if until.None? || until.value < instant then Some(instant) else until
  }

  predicate NotEarlier(before: Option<int>, after: Option<int>) {
    before.Some? ==> after.Some? && before.value <= after.value
  }

  function Remaining(until: Option<int>, now: int): nat {
    if until.None? || until.value <= now then 0 else until.value - now
  }

  // ----- the loop of one request -----

  /** The cooldown of one server, and the clock. */
  class Server {
    var now: int
    var until: Option<int>
    var unresolvable: bool

    /** Time passes, and other requests do what they may do to the cooldown. */
    method Meanwhile(passed: nat)
      modifies this
      ensures now >= old(now) + passed && NotEarlier(old(until), until)
    {
      var more :| 0 <= more;
      var instant: int := *;
      var held: bool := *;
      var flag: bool := *;
      now := now + passed + more;
      if held {
        until := Raised(until, instant);
      }
      unresolvable := flag;
    }

    method Hold(wait: nat)
      modifies this`until
      ensures until.Some? && until.value >= now + wait && NotEarlier(old(until), until)
      ensures until == old(until) || until == Some(now + wait)
    {
      until := Raised(until, now + wait);
    }
  }

  /**
   * One attempt. At its start: the clock, the hold, what was waited so far and how much of that for
   * the cooldown since the attempt before. At its end: the clock, the outcome, the shared flag and the
   * hold as found and as the request left them, and what chance chose for the next wait.
   */
  datatype Attempt = Attempt(
    started: int, until: Option<int>, waited: nat, cooled: nat,
    ended: int, outcome: Outcome, flagged: bool, flags: bool, found: Option<int>, left: Option<int>,
    jitter: nat, backoff: nat)

  /** The wait before the next attempt: what chance chose, or the busy wait of this retry's number. */
  function NextWait(a: Attempt, k: nat): nat {
    if a.outcome.Busy? then BusyWait(k, a.outcome.retryAfter, a.jitter) else a.backoff
  }

  /** The attempt before the `k`th failed its lookup. */
  predicate FailedBefore(attempts: seq<Attempt>, k: nat)
    requires k < |attempts|
  {
    k > 0 && attempts[k - 1].outcome.Unresolved?
  }

  /** Why the `k`th attempt is the last although it failed. */
  predicate GivesUp(policy: Policy, attempts: seq<Attempt>, k: nat)
    requires k < |attempts|
  {
    var a := attempts[k];
    || a.outcome.Permanent?
    || (a.outcome.Unresolved? && (FailedBefore(attempts, k) || a.flagged))
    || k >= policy.retries
    || (a.outcome.Busy? && a.outcome.retryAfter.Some? && a.outcome.retryAfter.value > MAX_BUSY_WAIT)
    || a.waited + NextWait(a, k) > policy.budget
  }

  predicate Retried(policy: Policy, attempts: seq<Attempt>, k: nat)
    requires k < |attempts|
  {
    !attempts[k].outcome.Success? && !GivesUp(policy, attempts, k)
  }

  /** An attempt starts without a hold, or with the budget spent. */
  predicate StartsClear(policy: Policy, a: Attempt) {
    Remaining(a.until, a.started) == 0 || a.waited == policy.budget
  }

  /** The shared flag and the hold as the attempt leaves them: a retried busy answer holds for its wait. */
  predicate LeavesRight(policy: Policy, attempts: seq<Attempt>, k: nat)
    requires k < |attempts|
  {
    var a := attempts[k];
    && (a.flags <==> a.outcome.Unresolved? && (FailedBefore(attempts, k) || a.flagged))
    && if a.outcome.Busy? && Retried(policy, attempts, k)
       then Covers(a.left, a.ended + NextWait(a, k)) && NotEarlier(a.found, a.left)
       else a.left == a.found
  }

  predicate Covers(until: Option<int>, instant: int) {
    until.Some? && until.value >= instant
  }

  /** Attempt `k` comes after the wait of the one before, and what it waited for the cooldown. */
  predicate Follows(attempts: seq<Attempt>, k: nat)
    requires 0 < k < |attempts|
  {
    var last, a := attempts[k - 1], attempts[k];
    && a.waited == last.waited + NextWait(last, k - 1) + a.cooled
    && a.started >= last.ended + NextWait(last, k - 1) + a.cooled
    && NotEarlier(last.left, a.until)
  }

  /** What is kept about the attempts made so far. */
  ghost predicate Story(policy: Policy, attempts: seq<Attempt>, start: int) {
    && (forall k | 0 <= k < |attempts| ::
          && StartsClear(policy, attempts[k]) && LeavesRight(policy, attempts, k)
          && attempts[k].waited <= policy.budget && attempts[k].started <= attempts[k].ended)
    && (forall k | 0 < k < |attempts| :: Follows(attempts, k))
    && (attempts != [] ==> attempts[0].waited == attempts[0].cooled <= attempts[0].started - start)
  }

  /** A new last attempt changes nothing about those before. */
  lemma StoryMore(policy: Policy, attempts: seq<Attempt>, start: int, a: Attempt)
    requires Story(policy, attempts, start) && StartsClear(policy, a)
    requires a.waited <= policy.budget && a.started <= a.ended
    requires var more := attempts + [a];
             && LeavesRight(policy, more, |attempts|)
             && if attempts == [] then a.waited == a.cooled <= a.started - start else Follows(more, |attempts|)
    ensures Story(policy, attempts + [a], start)
    ensures forall k | 0 <= k < |attempts| :: Retried(policy, attempts, k) == Retried(policy, attempts + [a], k)
  {
    var more := attempts + [a];
    forall k | 0 <= k < |attempts|
      ensures LeavesRight(policy, more, k) && Retried(policy, attempts, k) == Retried(policy, more, k)
    {
      assert more[k] == attempts[k] && LeavesRight(policy, attempts, k);
      assert FailedBefore(attempts, k) == FailedBefore(more, k);
    }
    forall k | 0 < k < |more| ensures Follows(more, k) {
      assert k < |attempts| ==> Follows(attempts, k);
    }
  }

  /** After the last attempt its wait was taken on and slept, and the hold it left still stands. */
  predicate Awaited(attempts: seq<Attempt>, waited: nat, now: int, until: Option<int>) {
    attempts != [] &&
    var k := |attempts| - 1;
    var last := attempts[k];
    && waited == last.waited + NextWait(last, k) && now >= last.ended + NextWait(last, k)
    && NotEarlier(last.left, until)
  }

  /** The decision is to wait exactly when the attempt is retried, and then for its next wait. */
  lemma DecisionMeans(policy: Policy, attempts: seq<Attempt>, a: Attempt, decision: Decision)
    requires a.waited <= policy.budget
    requires var failed := attempts != [] && attempts[|attempts| - 1].outcome.Unresolved?;
             decision == Decide(policy, |attempts|, a.waited, a.flagged, failed, a.outcome, a.jitter, a.backoff)
    ensures var more, k := attempts + [a], |attempts|;
            && (decision.Wait? <==> Retried(policy, more, k))
            && (decision.Wait? ==> decision.wait == NextWait(a, k) && (decision.busy <==> a.outcome.Busy?))
            && (decision.Stop? ==> (decision.ok <==> a.outcome.Success?))
            && (FailedBefore(more, k) <==> attempts != [] && attempts[k - 1].outcome.Unresolved?)
  {
    var more := attempts + [a];
    assert more[|attempts|] == a && (attempts != [] ==> more[|attempts| - 1] == attempts[|attempts| - 1]);
  }

  /** The inner loop: sleeps until no hold is left or the budget is spent. */
  method CoolDown(policy: Policy, server: Server, waited: nat) returns (cooled: nat)
    requires waited <= policy.budget
    modifies server
    ensures waited + cooled <= policy.budget && server.now >= old(server.now) + cooled
    ensures NotEarlier(old(server.until), server.until)
    ensures Remaining(server.until, server.now) == 0 || waited + cooled == policy.budget
  {
    cooled := 0;
    while true
      invariant waited + cooled <= policy.budget && server.now >= old(server.now) + cooled
      invariant NotEarlier(old(server.until), server.until)
      decreases policy.budget - waited - cooled
    {
      var held := Min(Remaining(server.until, server.now), policy.budget - (waited + cooled));
      if held == 0 {
        return;
      }
      server.Meanwhile(held);
      cooled := cooled + held;
    }
  }

  /** One attempt and what the request does about it before it sleeps or returns. */
  method TryOnce(policy: Policy, server: Server, retries: nat, waited: nat, cooled: nat, failedBefore: bool,
                 ghost attempts: seq<Attempt>) returns (a: Attempt, decision: Decision)
    requires |attempts| == retries && waited <= policy.budget
    requires failedBefore <==> attempts != [] && attempts[retries - 1].outcome.Unresolved?
    modifies server
    ensures a.started == old(server.now) <= a.ended == server.now && a.until == old(server.until)
    ensures a.waited == waited && a.cooled == cooled && NotEarlier(old(server.until), server.until)
    ensures server.until == a.left && server.unresolvable == a.flags
    ensures LeavesRight(policy, attempts + [a], retries)
    ensures decision.Wait? <==> Retried(policy, attempts + [a], retries)
    ensures decision.Wait? ==> decision.wait == NextWait(a, retries)
    ensures decision.Stop? ==> (decision.ok <==> a.outcome.Success?)
  {
    var started, until := server.now, server.until;
    var outcome: Outcome := *;
    server.Meanwhile(0);
    assert BusyStep(retries) / 2 >= 0;
    var jitter :| 0 <= jitter <= BusyStep(retries) / 2;
    var backoff :| 0 <= backoff;
    var flag, found := server.unresolvable, server.until;
    server.unresolvable := FlagAfter(flag, outcome, failedBefore);
    decision := Decide(policy, retries, waited, flag, failedBefore, outcome, jitter, backoff);
    if decision.Wait? && decision.busy {
      server.Hold(decision.wait);
    }
    a := Attempt(started, until, waited, cooled, server.now, outcome, flag, server.unresolvable, found, server.until,
                 jitter, backoff);
    DecisionMeans(policy, attempts, a, decision);
  }

  /**
   * `run`: whatever other requests do, it ends. It succeeds with its last attempt or gives up for one
   * of the five reasons, and an attempt is followed by another exactly when there is none of them.
   * Waits are those of the rule, are really slept and add up to at most the budget; each attempt
   * starts with no hold left or the budget spent; and every retried busy answer holds the server.
   */
  method Run(policy: Policy, server: Server) returns (ok: bool, attempts: seq<Attempt>, slept: nat)
    modifies server
    ensures 1 <= |attempts| <= policy.retries + 1 && Story(policy, attempts, old(server.now))
    ensures forall k | 0 <= k < |attempts| - 1 :: Retried(policy, attempts, k)
    ensures var last := |attempts| - 1;
            if ok then attempts[last].outcome.Success?
            else !attempts[last].outcome.Success? && GivesUp(policy, attempts, last)
    ensures slept == attempts[|attempts| - 1].waited <= policy.budget
    ensures server.now >= old(server.now) + slept && NotEarlier(old(server.until), server.until)
    ensures var last := attempts[|attempts| - 1]; server.unresolvable == last.flags && server.until == last.left
  {
    var retries: nat, waited: nat, unresolved := 0, 0, false;
    attempts := [];
    while true
      invariant |attempts| == retries <= policy.retries && waited <= policy.budget
      invariant Story(policy, attempts, old(server.now))
      invariant forall k | 0 <= k < retries :: Retried(policy, attempts, k)
      invariant unresolved <==> attempts != [] && attempts[retries - 1].outcome.Unresolved?
      invariant if attempts == [] then waited == 0 else Awaited(attempts, waited, server.now, server.until)
      invariant server.now >= old(server.now) + waited && NotEarlier(old(server.until), server.until)
      decreases policy.retries - retries
    {
      var cooled := CoolDown(policy, server, waited);
      waited := waited + cooled;
      var a, decision := TryOnce(policy, server, retries, waited, cooled, unresolved, attempts);
      StoryMore(policy, attempts, old(server.now), a);
      attempts := attempts + [a];
      unresolved := a.outcome.Unresolved?;
      if decision.Stop? {
        return decision.ok, attempts, waited;
      }
      waited := waited + decision.wait;
      server.Meanwhile(decision.wait);
      retries := retries + 1;
    }
  }

  // ----- many requests over one cooldown -----

  datatype Pc =
    | Cooling                            // about to read the cooldown
    | CoolSleep(wake: int, held: nat)    // waiting for the cooldown
    | InFlight                           // the attempt is under way
    | Marking(wait: nat)                 // a busy answer, before the clock is read
    | Raising(until: int, wait: nat)     // the hold is computed, not yet stored
    | Sleeping(wake: int)                // waiting for the next retry
    | Done(ok: bool)

  /** `attempts` and `slept` count what the request has done; the source keeps only the others. */
  datatype Request = Request(policy: Policy, pc: Pc, retries: nat, waited: nat, unresolved: bool,
                             attempts: nat, slept: nat)

  datatype State = State(now: int, until: Option<int>, unresolvable: bool, requests: seq<Request>)

  datatype Event =
    | Tick(passed: nat)
    | Check(i: nat)
    | Settle(i: nat, outcome: Outcome, jitter: nat, backoff: nat)
    | ReadClock(i: nat)
    | Raise(i: nat)
    | WakeUp(i: nat)

  predicate Enabled(s: State, e: Event) {
    e.Tick? ||
    (e.i < |s.requests| &&
     match (e, s.requests[e.i].pc)
     case (Check(_), Cooling) => true
     case (Settle(_, _, jitter, _), InFlight) => jitter <= BusyStep(s.requests[e.i].retries) / 2
     case (ReadClock(_), Marking(_)) => true
     case (Raise(_), Raising(_, _)) => true
     case (WakeUp(_), CoolSleep(wake, _)) => wake <= s.now
     case (WakeUp(_), Sleeping(wake)) => wake <= s.now
     case _ => false)
  }

  function AfterCheck(s: State, r: Request): Request
  {
    var held := Min(Remaining(s.until, s.now), if r.waited <= r.policy.budget then r.policy.budget - r.waited else 0);
    if held == 0 then r.(pc := InFlight, attempts := r.attempts + 1)
    else r.(pc := CoolSleep(s.now + held, held), slept := r.slept + held)
  }

  function AfterSettle(s: State, r: Request, e: Event): Request
    requires e.Settle?
  {
    var settled := r.(unresolved := e.outcome.Unresolved?);
    match Decide(r.policy, r.retries, r.waited, s.unresolvable, r.unresolved, e.outcome, e.jitter, e.backoff)
    case Stop(ok) => settled.(pc := Done(ok))
    case Wait(wait, busy) =>
      settled.(waited := r.waited + wait, slept := r.slept + wait,
               pc := if busy then Marking(wait) else Sleeping(s.now + wait))
  }

  function AfterWake(r: Request): Request {
    match r.pc
    case CoolSleep(_, held) => r.(pc := Cooling, waited := r.waited + held)
    case _ => r.(pc := Cooling, retries := r.retries + 1)
  }

  function RequestAfter(s: State, e: Event): Request
    requires Enabled(s, e) && !e.Tick?
  {
    var r := s.requests[e.i];
    match e
    case Check(_) => AfterCheck(s, r)
    case Settle(_, _, _, _) => AfterSettle(s, r, e)
    case ReadClock(_) => r.(pc := Raising(s.now + r.pc.wait, r.pc.wait))
    case Raise(_) => r.(pc := Sleeping(s.now + r.pc.wait))
    case WakeUp(_) => AfterWake(r)
  }

  function Next(s: State, e: Event): State
    requires Enabled(s, e)
  {
    if e.Tick? then s.(now := s.now + e.passed)
    else
      s.(requests := s.requests[e.i := RequestAfter(s, e)],
         until := if e.Raise? then Raised(s.until, s.requests[e.i].pc.until) else s.until,
         unresolvable :=
           if e.Settle? then FlagAfter(s.unresolvable, e.outcome, s.requests[e.i].unresolved) else s.unresolvable)
  }

  ghost predicate Init(s: State) {
    && !s.unresolvable
    && forall r | r in s.requests ::
         r.pc == Cooling && r.retries == r.waited == r.attempts == r.slept == 0 && !r.unresolved
  }

  ghost predicate IsRun(run: seq<State>, events: seq<Event>) {
    && |run| == |events| + 1
    && Init(run[0])
    && forall k: nat | k < |events| :: Enabled(run[k], events[k]) && run[k + 1] == Next(run[k], events[k])
  }

  // ----- what every request keeps -----

  predicate RequestInv(r: Request) {
    && r.retries <= r.policy.retries
    && r.slept == r.waited + (if r.pc.CoolSleep? then r.pc.held else 0) <= r.policy.budget
    && r.attempts == r.retries + (if r.pc.Cooling? || r.pc.CoolSleep? then 0 else 1)
    && (r.pc.CoolSleep? ==> r.pc.held > 0)
    && (r.pc.Marking? || r.pc.Raising? || r.pc.Sleeping? ==> r.retries < r.policy.retries)
  }

  ghost predicate Inv(s: State) {
    forall r | r in s.requests :: RequestInv(r)
  }

  lemma StepKeepsInv(s: State, e: Event)
    requires Inv(s) && Enabled(s, e)
    ensures Inv(Next(s, e))
  {
    if !e.Tick? {
      assert s.requests[e.i] in s.requests;
      assert RequestInv(RequestAfter(s, e));
    }
  }

  lemma {:induction false} InvAlways(run: seq<State>, events: seq<Event>, k: nat)
    requires IsRun(run, events) && k < |run|
    ensures Inv(run[k]) && |run[k].requests| == |run[0].requests|
  {
    if k > 0 {
      InvAlways(run, events, k - 1);
      StepKeepsInv(run[k - 1], events[k - 1]);
    }
  }

  /** In every run each request makes at most `retries + 1` attempts and sleeps within its budget. */
  lemma WithinPolicy(run: seq<State>, events: seq<Event>, k: nat, i: nat)
    requires IsRun(run, events) && k < |run| && i < |run[k].requests|
    ensures var r := run[k].requests[i];
            && r.attempts <= r.policy.retries + 1 && r.slept <= r.policy.budget
            && (r.pc.Done? ==> 1 <= r.attempts)
  {
    InvAlways(run, events, k);
    assert run[k].requests[i] in run[k].requests;
  }

  /**
   * A failure on the way or a busy answer is retried exactly when a retry is left, the server
   * does not ask for more than a minute, and the wait fits the budget.
   */
  lemma FailureIsRetried(run: seq<State>, events: seq<Event>, k: nat)
    requires IsRun(run, events) && k < |events| && events[k].Settle?
    requires events[k].outcome.Transient? || events[k].outcome.Busy?
    ensures var e, r := events[k], run[k].requests[events[k].i];
            var wait := if e.outcome.Transient? then e.backoff else BusyWait(r.retries, e.outcome.retryAfter, e.jitter);
            var after := run[k + 1].requests[e.i];
            && (!after.pc.Done? <==>
                && r.retries < r.policy.retries
                && (e.outcome.Busy? && e.outcome.retryAfter.Some? ==> e.outcome.retryAfter.value <= MAX_BUSY_WAIT)
                && r.slept + wait <= r.policy.budget)
            && (!after.pc.Done? ==>
                  after.slept == r.slept + wait && after.pc == if e.outcome.Busy? then Marking(wait)
                    else Sleeping(run[k].now + wait))
  {
    InvAlways(run, events, k);
    assert run[k].requests[events[k].i] in run[k].requests;
  }

  /** A request returns with success exactly for a success, and at once for that and for a permanent failure. */
  lemma OutcomeIsReturned(run: seq<State>, events: seq<Event>, k: nat)
    requires IsRun(run, events) && k < |events| && events[k].Settle?
    ensures var outcome, after := events[k].outcome, run[k + 1].requests[events[k].i].pc;
            && (after == Done(true) <==> outcome.Success?)
            && (outcome.Permanent? ==> after == Done(false))
  {
  }

  // ----- sleeping takes its time -----

  /** What a request has taken on to sleep, counted from `start`, is over now or at the latest when it wakes. */
  predicate OnTime(r: Request, start: int, now: int) {
    match r.pc
    case CoolSleep(wake, held) => start + r.slept <= wake <= now + held
    case Marking(wait) => start + r.slept <= now + wait
    case Raising(until, wait) => start + r.slept <= now + wait
    case Sleeping(wake) => start + r.slept <= wake
    case _ => start + r.slept <= now
  }

  lemma OnTimeAfter(s: State, e: Event, i: nat, start: int)
    requires Enabled(s, e) && i < |s.requests| && OnTime(s.requests[i], start, s.now)
    ensures OnTime(Next(s, e).requests[i], start, Next(s, e).now)
  {
  }

  /** In every run a request that is awake has spent at least what it slept since the start. */
  lemma {:induction false} SleepTakesTime(run: seq<State>, events: seq<Event>, k: nat, i: nat)
    requires IsRun(run, events) && k < |run| && i < |run[k].requests|
    ensures OnTime(run[k].requests[i], run[0].now, run[k].now)
    ensures var pc := run[k].requests[i].pc;
            (pc.Cooling? || pc.InFlight? || pc.Done?) ==> run[0].now + run[k].requests[i].slept <= run[k].now
  {
    if k == 0 {
      assert run[0].requests[i] in run[0].requests;
    } else {
      SleepTakesTime(run, events, k - 1, i);
      OnTimeAfter(run[k - 1], events[k - 1], i, run[0].now);
    }
  }

  // ----- a request ends whatever the others do -----

  /** How many steps of its own a request can still take. */
  function StepsLeft(r: Request): nat
    requires RequestInv(r)
  {
    6 * (r.policy.retries - r.retries) + 2 * (r.policy.budget - r.waited) +
    match r.pc
    case Cooling => 6
    case CoolSleep(_, _) => 5
    case InFlight => 4
    case Marking(_) => 3
    case Raising(_, _) => 2
    case Sleeping(_) => 1
    case Done(_) => 0
  }

  function OwnSteps(events: seq<Event>, i: nat): nat {
    if events == [] then 0
    else
      var last := events[|events| - 1];
      OwnSteps(events[..|events| - 1], i) + (if !last.Tick? && last.i == i then 1 else 0)
  }

  lemma StepCounts(s: State, e: Event, i: nat)
    requires Inv(s) && Enabled(s, e) && i < |s.requests|
    ensures Inv(Next(s, e)) && s.requests[i] in s.requests && Next(s, e).requests[i] in Next(s, e).requests
    ensures StepsLeft(Next(s, e).requests[i]) + (if !e.Tick? && e.i == i then 1 else 0) <= StepsLeft(s.requests[i])
  {
    StepKeepsInv(s, e);
    assert s.requests[i] in s.requests && Next(s, e).requests[i] in Next(s, e).requests;
  }

  /** In every run, however long, a request takes a bounded number of steps. */
  lemma {:induction false} RequestEnds(run: seq<State>, events: seq<Event>, i: nat)
    requires IsRun(run, events) && i < |run[0].requests|
    ensures var policy := run[0].requests[i].policy;
            OwnSteps(events, i) <= 6 * policy.retries + 2 * policy.budget + 6
  {
    assert run[0].requests[i] in run[0].requests;
    InvAlways(run, events, |events|);
    StepsUsed(run, events, i);
  }

  lemma {:induction false} StepsUsed(run: seq<State>, events: seq<Event>, i: nat)
    requires IsRun(run, events) && i < |run[0].requests|
    ensures var last := run[|events|];
            && i < |last.requests| && RequestInv(run[0].requests[i]) && RequestInv(last.requests[i])
            && OwnSteps(events, i) + StepsLeft(last.requests[i]) <= StepsLeft(run[0].requests[i])
    decreases |events|
  {
    InvAlways(run, events, 0);
    assert run[0].requests[i] in run[0].requests;
    if events != [] {
      var n := |events| - 1;
      var shorter, before := run[..n + 1], events[..n];
      assert IsRun(shorter, before);
      StepsUsed(shorter, before, i);
      InvAlways(run, events, n);
      StepCounts(run[n], events[n], i);
    }
  }

  /** A request that is not done can always take a step of its own, at the latest when time passes. */
  lemma NeverStuck(s: State, i: nat) returns (passed: nat, e: Event)
    requires i < |s.requests| && !s.requests[i].pc.Done?
    ensures !e.Tick? && e.i == i && Enabled(Next(s, Tick(passed)), e)
  {
    var pc := s.requests[i].pc;
    passed := if (pc.CoolSleep? || pc.Sleeping?) && pc.wake > s.now then pc.wake - s.now else 0;
    e := match pc
      case Cooling => Check(i)
      case InFlight => Settle(i, Success, 0, 0)
      case Marking(_) => ReadClock(i)
      case Raising(_, _) => Raise(i)
      case _ => WakeUp(i);
  }

  // ----- the cooldown -----

  lemma {:induction false} HoldMovesForward(run: seq<State>, events: seq<Event>, k: nat, m: nat)
    requires IsRun(run, events) && k <= m < |run|
    ensures NotEarlier(run[k].until, run[m].until) && run[k].now <= run[m].now
    decreases m
  {
    if k < m {
      HoldMovesForward(run, events, k, m - 1);
    }
  }

  /**
   * An attempt starts exactly when no hold remains or the request's budget is spent; otherwise the
   * request sleeps until the hold ends or its budget is spent, whichever is first.
   */
  lemma AttemptStarts(run: seq<State>, events: seq<Event>, k: nat)
    requires IsRun(run, events) && k < |events| && events[k].Check?
    ensures var r, after := run[k].requests[events[k].i], run[k + 1].requests[events[k].i];
            var left := Remaining(run[k].until, run[k].now);
            && (after.pc.InFlight? <==> left == 0 || r.waited == r.policy.budget)
            && (!after.pc.InFlight? ==>
                  && after.pc.CoolSleep? && run[k].until.Some? && after.pc.wake <= run[k].until.value
                  && after.pc.wake == run[k].now + after.pc.held && r.waited + after.pc.held <= r.policy.budget
                  && (after.pc.wake == run[k].until.value || r.waited + after.pc.held == r.policy.budget))
  {
    InvAlways(run, events, k);
    assert run[k].requests[events[k].i] in run[k].requests;
  }

  /** Between the busy answer `s` and the stored hold `k` its request only reads the clock. */
  ghost predicate HoldOf(events: seq<Event>, s: nat, k: nat) {
    && s < k < |events| && events[s].Settle? && events[s].outcome.Busy? && events[k].Raise?
      && events[k].i == events[s].i
    && forall j | s < j < k :: events[j].Tick? || events[j].i != events[s].i || events[j].ReadClock?
  }

  /** What the request is about to store covers its wait from the busy answer on. */
  lemma {:induction false} PendingHold(run: seq<State>, events: seq<Event>, s: nat, j: nat, wait: nat)
    requires IsRun(run, events) && s < j < |run| && events[s].Settle?
             && run[s + 1].requests[events[s].i].pc == Marking(wait)
    requires forall l | s < l < j :: events[l].Tick? || events[l].i != events[s].i || events[l].ReadClock?
    ensures events[s].i < |run[j].requests| && run[s].now <= run[j].now
    ensures var pc := run[j].requests[events[s].i].pc;
            || pc == Marking(wait)
            || (pc.Raising? && pc.wait == wait && run[s].now + wait <= pc.until <= run[j].now + wait)
    decreases j
  {
    if s + 1 < j {
      PendingHold(run, events, s, j - 1, wait);
    }
  }

  /** When its hold is stored, the request with the busy answer goes to sleep for the whole wait. */
  lemma BusySleeps(run: seq<State>, events: seq<Event>, s: nat, k: nat, wait: nat)
    requires IsRun(run, events) && HoldOf(events, s, k) && run[s + 1].requests[events[s].i].pc == Marking(wait)
    ensures run[k + 1].requests[events[s].i].pc == Sleeping(run[k].now + wait)
    ensures Covers(run[k + 1].until, run[s].now + wait)
    ensures run[k + 1].until == run[k].until || !Covers(run[k + 1].until, run[k].now + wait + 1)
  {
    PendingHold(run, events, s, k, wait);
  }

  /** Waits that are taken on for a busy answer are at most a minute. */
  predicate ShortWait(r: Request, now: int) {
    match r.pc
    case Marking(wait) => wait <= MAX_BUSY_WAIT
    case Raising(until, wait) => until <= now + MAX_BUSY_WAIT
    case _ => true
  }

  lemma ShortAfter(s: State, e: Event)
    requires Enabled(s, e) && forall r | r in s.requests :: ShortWait(r, s.now)
    ensures forall r | r in Next(s, e).requests :: ShortWait(r, Next(s, e).now)
  {
    if !e.Tick? {
      assert s.requests[e.i] in s.requests;
      assert ShortWait(RequestAfter(s, e), s.now);
    }
  }

  /** In every run the hold is the one it began with or reaches at most a minute ahead. */
  lemma {:induction false} HoldIsShort(run: seq<State>, events: seq<Event>, k: nat)
    requires IsRun(run, events) && k < |run|
    ensures forall r | r in run[k].requests :: ShortWait(r, run[k].now)
    ensures run[k].until == run[0].until || (run[k].until.Some? && run[k].until.value <= run[k].now + MAX_BUSY_WAIT)
  {
    if k > 0 {
      HoldIsShort(run, events, k - 1);
      ShortAfter(run[k - 1], events[k - 1]);
      var s, e := run[k - 1], events[k - 1];
      if e.Raise? {
        assert s.requests[e.i] in s.requests;
      }
    }
  }

  /**
   * A busy answer whose wait is taken on holds every other request back until that wait, counted
   * from the answer, is over: from the moment the hold is stored, and within the other's budget.
   */
  lemma BusyHoldsOthersBack(run: seq<State>, events: seq<Event>, s: nat, k: nat, m: nat, wait: nat)
    requires IsRun(run, events) && HoldOf(events, s, k) && run[s + 1].requests[events[s].i].pc == Marking(wait)
    requires k < m < |events| && events[m].Check? && run[m + 1].requests[events[m].i].pc.InFlight?
    ensures var r := run[m].requests[events[m].i];
            run[s].now + wait <= run[m].now || r.waited == r.policy.budget
  {
    PendingHold(run, events, s, k, wait);
    AttemptStarts(run, events, m);
    HoldMovesForward(run, events, k + 1, m);
  }

  // ----- host names that do not resolve -----

  /** How the last attempt of request `i` among the first `k` events ended. */
  function LastOutcome(events: seq<Event>, k: nat, i: nat): Option<Outcome>
    requires k <= |events|
  {
    if k == 0 then None
    else if events[k - 1].Settle? && events[k - 1].i == i then Some(events[k - 1].outcome)
    else LastOutcome(events, k - 1, i)
  }

  /** Event `k` is the second failed lookup in a row of its request. */
  predicate SecondFailure(events: seq<Event>, k: nat)
    requires k < |events|
  {
    && events[k].Settle? && events[k].outcome.Unresolved?
    && LastOutcome(events, k, events[k].i) == Some(Unresolved)
  }

  /** Two lookups in a row failed for some request, and no attempt has got past the lookup since. */
  ghost predicate GivenUp(events: seq<Event>, k: nat)
    requires k <= |events|
  {
    exists j: nat | j < k ::
      SecondFailure(events, j) && forall l: nat | j < l < k && events[l].Settle? :: events[l].outcome.Unresolved?
  }

  lemma {:induction false} LastOutcomeIsKept(run: seq<State>, events: seq<Event>, k: nat, i: nat)
    requires IsRun(run, events) && k < |run| && i < |run[k].requests|
    ensures run[k].requests[i].unresolved <==> LastOutcome(events, k, i) == Some(Unresolved)
  {
    if k == 0 {
      assert run[0].requests[i] in run[0].requests;
    } else {
      LastOutcomeIsKept(run, events, k - 1, i);
    }
  }

  lemma {:induction false} FlagMeansGivenUp(run: seq<State>, events: seq<Event>, k: nat)
    requires IsRun(run, events) && k < |run|
    ensures run[k].unresolvable <==> GivenUp(events, k)
  {
    if k > 0 {
      FlagMeansGivenUp(run, events, k - 1);
      var e := events[k - 1];
      if e.Settle? {
        LastOutcomeIsKept(run, events, k - 1, e.i);
        if e.outcome.Unresolved? && SecondFailure(events, k - 1) {
          assert GivenUp(events, k);
        }
      }
    }
  }

  /**
   * A failed lookup is retried exactly when it is the first in a row of its request, no pair of
   * failures stands for the server, a retry is left and its wait fits the budget.
   */
  lemma LookupIsRetried(run: seq<State>, events: seq<Event>, k: nat)
    requires IsRun(run, events) && k < |events| && events[k].Settle? && events[k].outcome.Unresolved?
    ensures var r := run[k].requests[events[k].i];
            run[k + 1].requests[events[k].i].pc.Sleeping? <==>
            && LastOutcome(events, k, events[k].i) != Some(Unresolved)
            && !GivenUp(events, k)
            && r.retries < r.policy.retries
            && r.waited + events[k].backoff <= r.policy.budget
  {
    LastOutcomeIsKept(run, events, k, events[k].i);
    FlagMeansGivenUp(run, events, k);
  }
}
