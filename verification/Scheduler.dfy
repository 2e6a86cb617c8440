/**
 * One job's scheduler loop, against a script of everything it can observe: clock readings, the
 * shutdown channel, timers, the job and the lock backend. The script is arbitrary apart from the
 * rules of the channel, so it covers every clock step and every interleaving of shutdown sends; a
 * script that ends cuts the loop off, so what is proved holds of every finite part of a run.
 */
module Scheduler {
  import opened Wrappers
  import opened Tokens
  import opened LockGuard
  import SleepWall

  /** One instant at which the loop looks at the world. */
  datatype Moment = Moment(
    clock: int,
    stop: bool,
    version: nat,
    closed: bool,
    timerDone: bool,
    jobDone: bool,
    jobOk: bool,
    claim: Reply<bool>,
    unlock: Reply<()>)

  /** Channel history: a new value is a new version, and nothing follows the last sender's drop. */
  ghost predicate Follows(a: Moment, b: Moment) {
    && a.version <= b.version
    && (a.version == b.version ==> a.stop == b.stop)
    && (a.closed ==> b.closed && a.version == b.version)
  }

  ghost predicate WellFormed(script: seq<Moment>) {
    forall i, j {:trigger Follows(script[i], script[j])} ::
      0 <= i <= j < |script| ==> Follows(script[i], script[j])
  }

  /** The first moment from which the channel carries `true` for good. */
  ghost function Latch(script: seq<Moment>): nat {
    if script == [] || !script[|script| - 1].stop then |script|
    else Latch(script[..|script| - 1])
  }

  /** The latch is where the lasting `true` begins: true from there on, and not just before. */
  lemma {:induction false} LatchIsLast(script: seq<Moment>)
    ensures Latch(script) <= |script|
    ensures forall i :: Latch(script) <= i < |script| ==> script[i].stop
    ensures Latch(script) > 0 ==> !script[Latch(script) - 1].stop
  {
    if script != [] && script[|script| - 1].stop {
      LatchIsLast(script[..|script| - 1]);
    }
  }

  lemma BeforeLatch(script: seq<Moment>, k: nat)
    requires k < |script| && !script[k].stop
    ensures k < Latch(script)
  {
  }

  class World {
    const script: seq<Moment>
    var now: nat

    ghost predicate Valid()
      reads this
    {
      now <= |script| && WellFormed(script)
    }

    constructor (script: seq<Moment>)
      requires WellFormed(script)
      ensures Valid() && this.script == script && now == 0
    {
      this.script, now := script, 0;
    }

    method Observe() returns (m: Moment)
      requires Valid() && now < |script|
      modifies this
      ensures Valid() && now == old(now) + 1 && m == script[old(now)]
    {
      m := script[now];
      now := now + 1;
    }
  }

  /** A parsed cron schedule: its ticks, and the least tick after an instant. */
  datatype Schedule = Schedule(isTick: int -> bool, after: int -> Option<int>)

  ghost predicate Lawful(schedule: Schedule) {
    forall a: int {:trigger LeastAfter(schedule, a)} :: LeastAfter(schedule, a)
  }

  ghost predicate LeastAfter(schedule: Schedule, a: int) {
    match schedule.after(a)
    case None => forall t: int :: t > a ==> !schedule.isTick(t)
    case Some(n) => n > a && schedule.isTick(n) && forall t: int :: a < t < n ==> !schedule.isTick(t)
  }

  /** A tick that was fired: the reading it was chosen at, and the reading that reached it. */
  datatype Fire = Fire(tick: int, anchoredAt: int, reachedAt: int)

  ghost predicate GoodFire(schedule: Schedule, f: Fire) {
    schedule.isTick(f.tick) && f.anchoredAt < f.tick <= f.reachedAt
  }

  /** Later than the one before, and no tick passed over unless it was already past. */
  ghost predicate GoodNext(schedule: Schedule, a: Fire, b: Fire) {
    && a.tick < b.tick
    && forall t: int :: a.tick < t < b.tick && schedule.isTick(t) ==> t <= b.anchoredAt
  }

  ghost predicate GoodFires(schedule: Schedule, fires: seq<Fire>) {
    && (forall i {:trigger GoodFire(schedule, fires[i])} :: 0 <= i < |fires| ==> GoodFire(schedule, fires[i]))
    && (forall i {:trigger GoodNext(schedule, fires[i - 1], fires[i])} ::
          0 < i < |fires| ==> GoodNext(schedule, fires[i - 1], fires[i]))
  }

  /** Anchoring past both the clock and the last fired tick keeps the fires good. */
  lemma {:induction false} AnchoredFireIsGood(schedule: Schedule, fires: seq<Fire>, now: int, anchor: int, reached: int)
    requires Lawful(schedule) && GoodFires(schedule, fires)
    requires anchor == if fires != [] && now < fires[|fires| - 1].tick then fires[|fires| - 1].tick else now
    requires schedule.after(anchor).Some? && schedule.after(anchor).value <= reached
    ensures GoodFires(schedule, fires + [Fire(schedule.after(anchor).value, now, reached)])
  {
    var f := Fire(schedule.after(anchor).value, now, reached);
    assert LeastAfter(schedule, anchor);
    forall i | 0 < i < |fires + [f]| ensures GoodNext(schedule, (fires + [f])[i - 1], (fires + [f])[i]) {
      if i < |fires| {
        assert GoodNext(schedule, fires[i - 1], fires[i]);
      }
    }
    forall i | 0 <= i < |fires + [f]| ensures GoodFire(schedule, (fires + [f])[i]) {
      if i < |fires| {
        assert GoodFire(schedule, fires[i]);
      }
    }
  }

  datatype Exit = Shutdown | Exhausted | Cut

  datatype Wait = Reached | Stopped | WaitCut

  /** A sleep until a tick: the moment of its first clock reading, and the one after its last look. */
  datatype Sleep = Sleep(tick: int, at: nat, end: nat)

  /** The tick was due at the first reading already. */
  predicate TickDue(script: seq<Moment>, z: Sleep)
    requires z.at < |script|
  {
    z.tick <= script[z.at].clock
  }

  /** No timer was done at the polls strictly between these moments. */
  ghost predicate TimerRuns(script: seq<Moment>, from: nat, until: nat) {
    forall k :: from < k < until && k < |script| ==> !script[k].timerDone
  }

  /** The clock read short of the tick at `p`, and again just after the first timer that was done since. */
  ghost predicate ReadAgain(script: seq<Moment>, tick: int, p: nat, q: nat) {
    && p + 1 < q <= |script|
    && script[p].clock < tick && TimerRuns(script, p, q - 1) && script[q - 1].timerDone
  }

  /** A sleep begun at `at` read the clock at `p`: first there, then after each timer, short of the tick so far. */
  ghost predicate ReadsAt(script: seq<Moment>, tick: int, at: nat, p: nat)
    decreases p
  {
    p == at || exists q: nat :: q < p && ReadsAt(script, tick, at, q) && ReadAgain(script, tick, q, p)
  }

  /** Its last reading: the tick was reached then, and at once; or no timer was done before the wait ended. */
  ghost predicate LastRead(script: seq<Moment>, z: Sleep, wait: Wait, p: nat) {
    && ReadsAt(script, z.tick, z.at, p)
    && if wait.Reached? then z.end == p + 1 <= |script| && z.tick <= script[p].clock
       else if wait.WaitCut? && p == z.end then z.end == |script|
       else p < z.end <= |script| && script[p].clock < z.tick && TimerRuns(script, p, z.end - 1)
  }

  lemma ReadsAtOnce(script: seq<Moment>, tick: int, at: nat)
    ensures ReadsAt(script, tick, at, at)
  {
  }

  lemma TimerDone(script: seq<Moment>, tick: int, p: nat, q: nat)
    requires p + 1 < q <= |script| && script[p].clock < tick && TimerRuns(script, p, q - 1) && script[q - 1].timerDone
    ensures ReadAgain(script, tick, p, q)
  {
  }

  lemma {:induction false} ReadsOn(script: seq<Moment>, tick: int, at: nat, q: nat, p: nat)
    requires ReadsAt(script, tick, at, q) && ReadAgain(script, tick, q, p)
    ensures ReadsAt(script, tick, at, p)
  {
  }

  /** A sleep that ended so: the last poll before its last reading, if any, found senders. */
  ghost predicate Slept(script: seq<Moment>, z: Sleep, wait: Wait) {
    && z.at < z.end <= |script|
    && match wait
       case Reached => if TickDue(script, z) then z.end == z.at + 1 else z.at + 3 <= z.end && !script[z.end - 2].closed
       case Stopped =>
         !TickDue(script, z) && z.at + 2 <= z.end && (script[z.end - 1].stop || script[z.end - 1].closed)
       case WaitCut =>
         !TickDue(script, z) && z.end == |script| && (z.end == z.at + 1 || !script[z.at + 1].closed)
  }

  /** Where the next tick is looked for: past the clock, and past the last tick. */
  function Anchor(last: Option<int>, now: int): int {
    if last.Some? && now < last.value then last.value else now
  }

  /** The sleep is until the tick after its anchor, which is read just before it. */
  ghost predicate Chosen(schedule: Schedule, script: seq<Moment>, sleeps: seq<Sleep>, i: nat)
    requires i < |sleeps|
  {
    var z := sleeps[i];
    && 1 <= z.at <= |script| && (i > 0 ==> sleeps[i - 1].end < z.at)
    && schedule.after(Anchor(if i == 0 then None else Some(sleeps[i - 1].tick), script[z.at - 1].clock)) == Some(z.tick)
  }

  /** The sleeps of a loop, the first `fired` of which reached their ticks. */
  ghost predicate Sleeps(schedule: Schedule, script: seq<Moment>, sleeps: seq<Sleep>, fired: nat) {
    && fired <= |sleeps| <= fired + 1
    && (forall i :: 0 <= i < fired ==> Slept(script, sleeps[i], Reached))
    && forall i :: 0 <= i < |sleeps| ==> Chosen(schedule, script, sleeps, i)
  }

  lemma {:induction false} SleepsOn(schedule: Schedule, script: seq<Moment>, sleeps: seq<Sleep>, z: Sleep)
    requires Sleeps(schedule, script, sleeps, |sleeps|) && Chosen(schedule, script, sleeps + [z], |sleeps|)
    ensures Sleeps(schedule, script, sleeps + [z], |sleeps|)
    ensures Slept(script, z, Reached) ==> Sleeps(schedule, script, sleeps + [z], |sleeps| + 1)
  {
    forall i | 0 <= i < |sleeps + [z]| ensures Chosen(schedule, script, sleeps + [z], i) {
      assert i < |sleeps| ==> Chosen(schedule, script, sleeps, i);
    }
  }

  /** How the loop came to its exit at moment `now`: in its last sleep, or outside any. */
  ghost predicate Exits(script: seq<Moment>, sleeps: seq<Sleep>, fired: nat, exit: Exit, now: nat) {
    if |sleeps| > fired then
      var z := sleeps[|sleeps| - 1];
      !exit.Exhausted? && z.end == now && Slept(script, z, if exit.Cut? then WaitCut else Stopped)
    else
      && (exit.Cut? ==> now == |script|)
      && (exit.Shutdown? ==> 0 < now <= |script| && script[now - 1].stop && forall i :: 0 <= i < |sleeps| ==> sleeps[i].end < now)
  }

  /** What an exit says of the moment it was taken at. */
  lemma ExitMoment(script: seq<Moment>, sleeps: seq<Sleep>, fired: nat, exit: Exit, now: nat)
    requires Exits(script, sleeps, fired, exit, now)
    ensures exit.Cut? ==> now == |script|
    ensures exit.Shutdown? ==> 0 < now <= |script| && (script[now - 1].stop || script[now - 1].closed)
  {
  }

  lemma NoSleeps(schedule: Schedule, script: seq<Moment>)
    ensures Sleeps(schedule, script, [], 0)
  {
  }

  /** The senders are gone at moment `c`, and the channel was left at `false`. */
  ghost predicate ClosedAt(script: seq<Moment>, c: nat) {
    c < |script| && script[c].closed && !script[c].stop
  }

  /** Some tick that the loop waited for past moment `c` was not due at its first reading. */
  ghost predicate SomeTickNotDue(script: seq<Moment>, sleeps: seq<Sleep>, c: nat) {
    exists i :: 0 <= i < |sleeps| && c <= sleeps[i].at + 1 < |script| && !TickDue(script, sleeps[i])
  }

  /** The loop is stopped in a sleep that it looked up from only past moment `c`. */
  predicate StopsAsleep(sleeps: seq<Sleep>, exit: Exit, c: nat) {
    exit.Shutdown? && sleeps != [] && c <= sleeps[|sleeps| - 1].at + 1
  }

  /** Once closed, a channel stays so and keeps its value. */
  lemma {:induction false} ClosedStays(script: seq<Moment>, c: nat, k: nat)
    requires WellFormed(script) && ClosedAt(script, c) && c <= k < |script|
    ensures ClosedAt(script, k)
  {
    assert Follows(script[c], script[k]);
  }

  /**
   * Once its senders are gone the loop is stopped by a later sleep exactly when some tick it waits
   * for is not due at its first reading: it outlives the close as long as every tick is.
   */
  lemma {:induction false} OutlivesCloseIff(
    schedule: Schedule, script: seq<Moment>, sleeps: seq<Sleep>, fired: nat, exit: Exit, now: nat, c: nat)
    requires WellFormed(script) && ClosedAt(script, c)
    requires Sleeps(schedule, script, sleeps, fired) && Exits(script, sleeps, fired, exit, now)
    ensures StopsAsleep(sleeps, exit, c) <==> SomeTickNotDue(script, sleeps, c)
  {
    if StopsAsleep(sleeps, exit, c) {
      StoppedByClose(schedule, script, sleeps, fired, exit, now, c);
    }
    if SomeTickNotDue(script, sleeps, c) {
      var i :| 0 <= i < |sleeps| && c <= sleeps[i].at + 1 < |script| && !TickDue(script, sleeps[i]);
      NotDueStops(schedule, script, sleeps, fired, exit, now, c, i);
    }
  }

  lemma {:induction false} OutlivesEachClose(
    schedule: Schedule, script: seq<Moment>, sleeps: seq<Sleep>, fired: nat, exit: Exit, now: nat)
    requires WellFormed(script) && Sleeps(schedule, script, sleeps, fired) && Exits(script, sleeps, fired, exit, now)
    ensures forall c :: ClosedAt(script, c) ==> (StopsAsleep(sleeps, exit, c) <==> SomeTickNotDue(script, sleeps, c))
  {
    forall c | ClosedAt(script, c) ensures StopsAsleep(sleeps, exit, c) <==> SomeTickNotDue(script, sleeps, c) {
      OutlivesCloseIff(schedule, script, sleeps, fired, exit, now, c);
    }
  }

  lemma {:induction false} StoppedByClose(
    schedule: Schedule, script: seq<Moment>, sleeps: seq<Sleep>, fired: nat, exit: Exit, now: nat, c: nat)
    requires WellFormed(script) && ClosedAt(script, c)
    requires Sleeps(schedule, script, sleeps, fired) && Exits(script, sleeps, fired, exit, now)
    requires StopsAsleep(sleeps, exit, c)
    ensures SomeTickNotDue(script, sleeps, c)
  {
    var z := sleeps[|sleeps| - 1];
    if |sleeps| == fired {
      assert Slept(script, z, Reached);
      ClosedStays(script, c, now - 1);
    }
    assert c <= z.at + 1 < |script| && !TickDue(script, z);
  }

  lemma {:induction false} NotDueStops(
    schedule: Schedule, script: seq<Moment>, sleeps: seq<Sleep>, fired: nat, exit: Exit, now: nat, c: nat, i: nat)
    requires WellFormed(script) && ClosedAt(script, c)
    requires Sleeps(schedule, script, sleeps, fired) && Exits(script, sleeps, fired, exit, now)
    requires i < |sleeps| && c <= sleeps[i].at + 1 < |script| && !TickDue(script, sleeps[i])
    ensures i == |sleeps| - 1 == fired && StopsAsleep(sleeps, exit, c)
  {
    var z := sleeps[i];
    if i < fired {
      assert Slept(script, z, Reached);
      ClosedStays(script, c, z.end - 2);
    } else if exit.Cut? {
      ClosedStays(script, c, z.at + 1);
    }
  }

  datatype Outcome = Ok | Error | Abandoned | TimedOut

  datatype Reason = InProgress | LockError | AcquireTimedOut | ShutdownBeforeAcquire

  class JobLoop {
    const name: string
    const schedule: Schedule
    const maxRun: nat
    const world: World
    const lock: RedisRunLock
    const backend: Backend

    /** The channel version this receiver has seen. */
    var seen: nat
    var lastFired: Option<int>
    var attempts: nat
    var completed: seq<Outcome>
    var skipped: seq<Reason>
    var exhausted: bool

    ghost var fires: seq<Fire>
    ghost var sleeps: seq<Sleep>
    /** The moments at which `job.run()` was first polled. */
    ghost var starts: seq<nat>

    /** The receiver has seen no version later than the last one it could observe. */
    ghost predicate Receiving()
      reads this, world
    {
      && world.Valid()
      && seen <= if world.now == 0 then 0 else world.script[world.now - 1].version
    }

    ghost predicate Valid()
      reads this, world, lock, backend
    {
      && Receiving() && Accounted(lock, backend) && StartedOpen() && Ticking()
    }

    ghost predicate Ticking()
      reads this`fires, this`lastFired
    {
      && Lawful(schedule) && GoodFires(schedule, fires)
      && lastFired == (if fires == [] then None else Some(fires[|fires| - 1].tick))
    }

    /** No run was started once the channel carried `true` or had no senders. */
    ghost predicate StartedOpen()
      reads this`starts
    {
      forall i :: 0 <= i < |starts| ==> OpenAt(starts[i])
    }

    /** The channel was open and carried `false` at this moment. */
    ghost predicate OpenAt(k: nat) {
      k < |world.script| && !world.script[k].stop && !world.script[k].closed
    }

    /** Every attempt has been counted once as completed or skipped. */
    predicate Settled()
      reads this
    {
      attempts == |completed| + |skipped|
    }

    constructor (name: string, schedule: Schedule, maxRun: nat, world: World, lock: RedisRunLock, backend: Backend)
      requires world.Valid() && Lawful(schedule) && Accounted(lock, backend)
      requires world.now == 0
      ensures Valid() && Settled()
      ensures this.name == name && this.schedule == schedule && this.maxRun == maxRun
      ensures this.world == world && this.lock == lock && this.backend == backend
      ensures attempts == 0 && fires == [] && sleeps == [] && starts == [] && seen == 0 && !exhausted
    {
      this.name, this.schedule, this.maxRun := name, schedule, maxRun;
      this.world, this.lock, this.backend := world, lock, backend;
      seen, lastFired, attempts, completed, skipped := 0, None, 0, [], [];
      exhausted, fires, sleeps, starts := false, [], [], [];
    }

    /** One poll of the shutdown wait: `false` sends are consumed and the wait goes on. */
    method PollShutdown(m: Moment) returns (fired: bool)
      requires seen <= m.version
      modifies this`seen
      ensures seen == m.version
      ensures fired <==> (old(seen) != m.version && m.stop) || m.closed
    {
      if seen != m.version {
        seen := m.version;
        if m.stop {
          return true;
        }
      }
      fired := m.closed;
    }

    /** Looks at the world once; the receiver stays behind what it could observe. */
    method Look() returns (m: Moment)
      requires Receiving() && world.now < |world.script|
      modifies world
      ensures Receiving() && world.now == old(world.now) + 1
      ensures m == world.script[old(world.now)] && seen <= m.version
    {
      if world.now > 0 {
        assert Follows(world.script[world.now - 1], world.script[world.now]);
      }
      m := world.Observe();
    }

    /** The receiver read `false` at `read`, and has seen nothing since that read did not carry. */
    ghost predicate ReadFalse(read: nat)
      reads this, world
    {
      && Receiving() && read < world.now
      && seen <= world.script[read].version && !world.script[read].stop
    }

    /** One look at a pending shutdown wait. A `true` is never a version seen already. */
    method LookForShutdown(ghost read: nat) returns (m: Moment, stopped: bool)
      requires ReadFalse(read) && world.now < |world.script|
      modifies this`seen, world
      ensures world.now == old(world.now) + 1 && m == world.script[old(world.now)]
      ensures stopped <==> m.stop || m.closed
      ensures Receiving() && (!stopped ==> ReadFalse(old(world.now)) && old(world.now) < Latch(world.script))
    {
      m := Look();
      assert Follows(world.script[read], m);
      stopped := PollShutdown(m);
      if !stopped {
        BeforeLatch(world.script, world.now - 1);
      }
    }

    /** One chunk of a sleep: polls until the timer is done or the shutdown wait ends. */
    method SleepChunk(ghost read: nat) returns (nap: Wait, ghost falseAt: nat)
      requires ReadFalse(read) && 0 < world.now <= Latch(world.script) + 2
      modifies this`seen, world
      ensures Receiving() && old(world.now) <= world.now
      ensures TimerRuns(world.script, old(world.now) - 1, world.now - 1)
      ensures world.now == old(world.now) || nap.Stopped? || !world.script[old(world.now)].closed
      ensures match nap
              case Reached =>
                && ReadFalse(falseAt) && old(world.now) < world.now <= Latch(world.script)
                && world.script[world.now - 1].timerDone && !world.script[world.now - 1].closed
              case Stopped =>
                old(world.now) < world.now && (world.script[world.now - 1].stop || world.script[world.now - 1].closed)
              case WaitCut => world.now == |world.script| && world.now <= Latch(world.script) + 2
    {
      falseAt := read;
      nap := WaitCut;
      while true
        invariant ReadFalse(falseAt) && old(world.now) <= world.now <= Latch(world.script) + 2
        invariant forall k :: old(world.now) <= k < world.now ==> !world.script[k].timerDone
        invariant world.now == old(world.now) || !world.script[old(world.now)].closed
        decreases |world.script| - world.now
      {
        if world.now == |world.script| {
          return;
        }
        var m, stopped := LookForShutdown(falseAt);
        if stopped {
          nap := Stopped;
          return;
        }
        falseAt := world.now - 1;
        if m.timerDone {
          nap := Reached;
          return;
        }
      }
    }

    /** Sleeps until the clock reads at or past `deadline`, or the shutdown wait ends. */
    method SleepUntil(deadline: int, ghost read: nat) returns (wait: Wait, ghost last: nat)
      requires ReadFalse(read) && world.now < |world.script| && world.now <= Latch(world.script) + 1
      modifies this`seen, this`sleeps, world
      ensures Receiving() && old(world.now) < world.now
      ensures sleeps == old(sleeps) + [Sleep(deadline, old(world.now), world.now)]
      ensures Slept(world.script, Sleep(deadline, old(world.now), world.now), wait)
      ensures wait.Reached? ==> world.script[world.now - 1].clock >= deadline
      // The clock is read again after each timer, and the tick is reached as soon as it reads so.
      ensures LastRead(world.script, Sleep(deadline, old(world.now), world.now), wait, last)
      ensures !wait.Stopped? ==> world.now <= Latch(world.script) + 2
    {
      hide Latch, WellFormed, TimerRuns, ReadsAt, ReadAgain;
      ghost var falseAt: nat := read;
      last := world.now;
      ReadsAtOnce(world.script, deadline, last);
      while true
        invariant ReadFalse(falseAt) && old(world.now) <= world.now && world.now <= Latch(world.script) + 1
        invariant last == world.now && ReadsAt(world.script, deadline, old(world.now), last)
        invariant world.now == old(world.now)
               || (old(world.now) + 2 <= world.now && !world.script[world.now - 1].closed
                   && !world.script[old(world.now) + 1].closed && world.script[old(world.now)].clock < deadline)
        invariant sleeps == old(sleeps)
        decreases |world.script| - world.now
      {
        if world.now == |world.script| {
          sleeps := sleeps + [Sleep(deadline, old(world.now), world.now)];
          return WaitCut, last;
        }
        var m := Look();
        if deadline <= m.clock {
          sleeps := sleeps + [Sleep(deadline, old(world.now), world.now)];
          return Reached, last;
        }
        var nap;
        nap, falseAt := SleepChunk(falseAt);
        if !nap.Reached? {
          sleeps := sleeps + [Sleep(deadline, old(world.now), world.now)];
          return nap, last;
        }
        TimerDone(world.script, deadline, last, world.now);
        ReadsOn(world.script, deadline, old(world.now), last, world.now);
        last := world.now;
      }
    }

    /** What a finished fire did: skipped when stopped or denied the lock, and only then. */
    ghost predicate FireSettled(at: nat, skippedBefore: seq<Reason>, completedBefore: seq<Outcome>, startsBefore: seq<nat>)
      reads this, world
    {
      if at < |world.script| && world.script[at].stop then
        skipped == skippedBefore + [ShutdownBeforeAcquire] && completed == completedBefore && starts == startsBefore
      else
        && at + 1 < |world.script|
        && var claim := world.script[at + 1].claim;
           if claim == Answer(true) then
             && skipped == skippedBefore && |completed| > 0 && startsBefore <= starts && 2 <= world.now <= |world.script|
             && completed == completedBefore + [completed[|completed| - 1]]
             && EndsBy(completed[|completed| - 1], if starts == startsBefore then None else Some(starts[|starts| - 1]),
                       world.script[world.now - 2])
           else
             && |skipped| > 0 && skipped == skippedBefore + [skipped[|skipped| - 1]] && Tells(skipped[|skipped| - 1], claim)
             && completed == completedBefore && starts == startsBefore
    }

    /** The reason says what the backend replied. */
    predicate Tells(reason: Reason, reply: Reply<bool>) {
      && (reason.InProgress? <==> reply.Answer? && !reply.value)
      && (reason.LockError? <==> reply.Error?)
      && (reason.AcquireTimedOut? <==> reply.Timeout?)
      && !reason.ShutdownBeforeAcquire?
    }

    function SkipReason(reply: Reply<bool>): Reason {
      match reply
      case Answer(_) => InProgress
      case Error => Reason.LockError
      case Timeout => Reason.AcquireTimedOut
    }

    /** Takes the run lock; the guard returned owes one release, anything else is settled. */
    method Claim(m: Moment) returns (guard: Option<Guard>)
      requires Accounted(lock, backend)
      modifies lock, backend
      ensures Accounted(lock, backend)
      ensures guard.Some? <==> m.claim == Answer(true)
      ensures guard.Some? ==> fresh(guard.value) && Owing(guard.value)
      ensures if guard.Some? then Claimed(old(backend.claims)) && backend.unlocks == old(backend.unlocks)
              else Paid(old(backend.claims), old(backend.unlocks), m.claim)
    {
      hide Accounted, Within;
      AccountedIs(lock, backend);
      ghost var claims, unlocks := backend.claims, backend.unlocks;
      var acquired := Acquire(name, lock, backend, m.claim, m.unlock);
      ClaimAccounted(lock, backend, claims, unlocks);
      if acquired.Taken? {
        guard := Some(acquired.guard);
        assert backend.claims[..|backend.claims| - 1] == claims;
      } else {
        guard := None;
      }
    }

    /** One claim for this job has been sent since. */
    ghost predicate Claimed(claims: seq<Call>)
      reads backend
    {
      && |backend.claims| == |claims| + 1 && backend.claims[..|claims|] == claims
      && backend.claims[|claims|].job == name
    }

    /** That claim has been settled: it was released once, unless it was denied. */
    ghost predicate Paid(claims: seq<Call>, unlocks: seq<Call>, reply: Reply<bool>)
      reads backend
    {
      Claimed(claims) && backend.unlocks == unlocks + Due(reply, backend.claims[|claims|])
    }

    /** Releasing through this guard keeps the account of claims and releases. */
    ghost predicate Owing(guard: Guard)
      reads guard, backend
    {
      && guard.backend == backend && |backend.claims| > 0
      && guard.Owed() == [backend.claims[|backend.claims| - 1]]
      && Within(backend.unlocks, backend.claims[..|backend.claims| - 1])
    }

    /** Releases the slot once the run is over, however it ended. */
    method Settle(guard: Guard, reply: Reply<()>)
      requires Accounted(lock, backend) && Owing(guard)
      modifies guard, backend
      ensures Accounted(lock, backend) && guard.Owed() == []
      ensures backend.claims == old(backend.claims)
      ensures backend.unlocks == old(backend.unlocks) + [backend.claims[|backend.claims| - 1]]
    {
      hide Within;
      ghost var call := backend.claims[|backend.claims| - 1];
      WithinGrows(backend.unlocks, backend.claims[..|backend.claims| - 1], call);
      assert backend.claims[..|backend.claims| - 1] + [call] == backend.claims;
      var _ := guard.Release(reply);
    }

    /** A run first polled at `first` was neither over nor seen past its deadline before `until`. */
    ghost predicate RunsOn(first: nat, until: nat) {
      forall k :: first <= k < until && k < |world.script| ==>
        && !world.script[k].jobDone
        && (k == first || world.script[k].timerDone ==>
              maxRun > 0 && world.script[k].clock - world.script[first].clock < maxRun)
    }

    /** What ended the run: shutdown before its result, its result before the deadline by the clock. */
    ghost predicate EndsBy(outcome: Outcome, first: Option<nat>, m: Moment) {
      match outcome
      case Abandoned => m.stop || m.closed
      case TimedOut =>
        && first.Some? && first.value < |world.script| && !m.stop && !m.closed && !m.jobDone
        && (maxRun > 0 ==> m.clock - world.script[first.value].clock >= maxRun)
      case _ => first.Some? && !m.stop && !m.closed && m.jobDone && (outcome.Ok? <==> m.jobOk)
    }

    /**
     * The run against shutdown and the deadline, polled in that order; none when cut. It is started
     * once at most, and lasts until the first moment at which one of the three ends it.
     */
    method Race(ghost read: nat) returns (outcome: Option<Outcome>)
      requires ReadFalse(read) && world.now <= Latch(world.script) + 1
      requires StartedOpen()
      modifies this`seen, this`starts, world
      ensures Receiving() && old(world.now) <= world.now
      ensures StartedOpen() && (starts == old(starts) || exists first :: starts == old(starts) + [first])
      ensures starts != old(starts) ==> RunsOn(starts[|starts| - 1], world.now - 1)
      ensures outcome.Some? ==>
                0 < world.now && EndsBy(outcome.value,
                  if starts == old(starts) then None else Some(starts[|starts| - 1]), world.script[world.now - 1])
      ensures if outcome.None? then world.now == |world.script| && world.now <= Latch(world.script) + 1
              else world.now <= Latch(world.script) + 2
    {
      ghost var falseAt: nat := read;
      ghost var first: nat := world.now;
      var runningSince: Option<int> := None;
      outcome := None;
      while outcome.None?
        invariant old(world.now) <= world.now
        invariant if outcome.None? then ReadFalse(falseAt) else Receiving()
        invariant StartedOpen()
        invariant if runningSince.None? then starts == old(starts) && first == world.now
                  else first < world.now && starts == old(starts) + [first] && runningSince.value == world.script[first].clock
        invariant RunsOn(first, world.now - if outcome.None? then 0 else 1)
        invariant outcome.Some? ==>
          0 < world.now && EndsBy(outcome.value, if runningSince.None? then None else Some(first), world.script[world.now - 1])
        invariant world.now <= Latch(world.script) + if outcome.None? then 1 else 2
        decreases |world.script| - world.now, outcome.None?
      {
        if world.now == |world.script| {
          return;
        }
        var m, stopped := LookForShutdown(falseAt);
        if stopped {
          outcome := Some(Abandoned);
          return;
        }
        falseAt := world.now - 1;
        var starting := runningSince.None?;
        if starting {
          starts := starts + [world.now - 1];
          runningSince := Some(m.clock);
        }
        if m.jobDone {
          outcome := Some(if m.jobOk then Outcome.Ok else Outcome.Error);
        } else if (starting || m.timerDone) && SleepWall.Elapsed(runningSince.value, m.clock) >= maxRun {
          outcome := Some(Outcome.TimedOut);
        }
      }
    }

    /**
     * One fire: skip when shutdown is already set, take the lock, race the run against shutdown
     * and the wall-clock deadline, release. Acquire and release are never cut short by shutdown.
     */
    method RunLocked() returns (finished: bool)
      requires Receiving() && Accounted(lock, backend) && StartedOpen()
      requires Settled() && world.now <= Latch(world.script) + 2
      modifies this`seen, this`starts, this`attempts, this`completed, this`skipped, world, lock, backend
      ensures Receiving() && Accounted(lock, backend) && StartedOpen()
      ensures attempts == old(attempts) + 1 && old(world.now) <= world.now
      ensures old(starts) <= starts && |starts| <= |old(starts)| + 1
      ensures if finished then Settled() else world.now == |world.script|
      ensures finished ==> FireSettled(old(world.now), old(skipped), old(completed), old(starts))
      ensures finished && world.script[old(world.now)].stop ==>
                backend.claims == old(backend.claims) && backend.unlocks == old(backend.unlocks)
      ensures finished && !world.script[old(world.now)].stop ==>
                Paid(old(backend.claims), old(backend.unlocks), world.script[old(world.now) + 1].claim)
      ensures world.now <= Latch(world.script) + 3
    {
      hide Accounted, Latch, OpenAt, EndsBy, Follows, Paid;
      attempts := attempts + 1;
      if world.now == |world.script| {
        return false;
      }
      var m := Look();
      if m.stop {
        skipped := skipped + [ShutdownBeforeAcquire];
        return true;
      }
      BeforeLatch(world.script, world.now - 1);
      if world.now == |world.script| {
        return false;
      }
      finished := AcquireAndRun(world.now - 1);
    }

    /** The fire from the acquire on: whatever the reply, its claim is settled by the time it is done. */
    method AcquireAndRun(ghost read: nat) returns (finished: bool)
      requires ReadFalse(read) && Accounted(lock, backend) && StartedOpen()
      requires 0 < world.now < |world.script| && world.now <= Latch(world.script) && !world.script[world.now - 1].stop
      modifies this`seen, this`starts, this`completed, this`skipped, world, lock, backend
      ensures Receiving() && Accounted(lock, backend) && StartedOpen()
      ensures old(world.now) <= world.now <= Latch(world.script) + 3
      ensures old(starts) <= starts && |starts| <= |old(starts)| + 1
      ensures if finished then |completed| + |skipped| == |old(completed)| + |old(skipped)| + 1
              else world.now == |world.script|
      ensures finished ==> FireSettled(old(world.now) - 1, old(skipped), old(completed), old(starts))
      ensures finished ==> Paid(old(backend.claims), old(backend.unlocks), world.script[old(world.now)].claim)
    {
      hide Accounted, Latch, Owing, OpenAt, RunsOn, EndsBy, Follows, StartedOpen;
      var m := Look();
      var reply := m.claim;
      var guard := Claim(m);
      if guard.None? {
        assert reply.Answer? ==> !reply.value;
        skipped := skipped + [SkipReason(reply)];
        return true;
      }
      var outcome := Race(read);
      if outcome.None? || world.now == |world.script| {
        return false;
      }
      m := Look();
      Settle(guard.value, m.unlock);
      completed := completed + [outcome.value];
      return true;
    }

    /** Fires a tick chosen at reading `now` and reached by the last reading. */
    method FireTick(tick: int, ghost now: int) returns (finished: bool)
      requires Valid() && Settled() && world.now <= Latch(world.script) + 2
      requires schedule.after(Anchor(lastFired, now)) == Some(tick)
      requires world.now > 0 && tick <= world.script[world.now - 1].clock
      modifies this`seen, this`starts, this`attempts, this`completed, this`skipped, this`fires, this`lastFired,
               world, lock, backend
      ensures Valid() && world.now <= Latch(world.script) + 3
      ensures fires == old(fires) + [Fire(tick, now, old(world.script[world.now - 1].clock))]
      ensures attempts == old(attempts) + 1 && old(world.now) <= world.now
      ensures |starts| <= |old(starts)| + 1
      ensures if finished then Settled() else world.now == |world.script|
    {
      hide Accounted, Latch, GoodFires, Lawful, OpenAt, Follows, StartedOpen;
      AnchoredFireIsGood(schedule, fires, now, Anchor(lastFired, now), world.script[world.now - 1].clock);
      fires := fires + [Fire(tick, now, world.script[world.now - 1].clock)];
      lastFired := Some(tick);
      finished := RunLocked();
    }

    /** The sleeps so far are those of the ticks fired, and perhaps of one more. */
    ghost predicate Rested()
      reads this`fires, this`sleeps
    {
      && Sleeps(schedule, world.script, sleeps, |fires|)
      && forall i :: 0 <= i < |fires| ==> fires[i].tick == sleeps[i].tick
    }

    /** Between a fire and the next sleep. */
    ghost predicate Awake()
      reads this`fires, this`sleeps, this`lastFired, world
    {
      && Rested() && |sleeps| == |fires|
      && lastFired == (if sleeps == [] then None else Some(sleeps[|sleeps| - 1].tick))
      && (forall i :: 0 <= i < |sleeps| ==> sleeps[i].end <= world.now)
    }

    /** A sleep until the tick after its anchor extends the record. */
    ghost method NoteSleep(before: seq<Sleep>, wait: Wait)
      requires |before| == |fires| && |sleeps| == |before| + 1 && sleeps == before + [sleeps[|before|]]
      requires Sleeps(schedule, world.script, before, |before|) && Slept(world.script, sleeps[|before|], wait)
      requires forall i :: 0 <= i < |fires| ==> fires[i].tick == before[i].tick
      requires Chosen(schedule, world.script, sleeps, |before|)
      ensures Rested()
      ensures wait.Reached? ==> Sleeps(schedule, world.script, sleeps, |sleeps|)
    {
      SleepsOn(schedule, world.script, before, sleeps[|before|]);
    }

    /** What holds between one fire and the next sleep. */
    ghost predicate Turning()
      reads this, world, lock, backend
    {
      Valid() && Settled() && |starts| <= attempts == |fires| && !exhausted && Awake()
    }

    /** What holds once the loop has come to an exit. */
    ghost predicate Left(exit: Exit)
      reads this, world, lock, backend
    {
      && Valid() && Rested() && Exits(world.script, sleeps, |fires|, exit, world.now)
      && |starts| <= attempts <= |fires| <= attempts + 1 && (!exit.Cut? ==> Settled() && attempts == |fires|)
      && (exit.Exhausted? <==> exhausted) && (exhausted ==> exists a :: schedule.after(a).None?)
    }

    /** What holds when a tick chosen at reading `now` has been reached. */
    ghost predicate AtTick(tick: int, now: int)
      reads this, world, lock, backend
    {
      && Valid() && Settled() && |starts| <= attempts == |fires| && !exhausted
      && Sleeps(schedule, world.script, sleeps, |fires| + 1) && |sleeps| == |fires| + 1 && sleeps[|fires|].tick == tick
      && (forall i :: 0 <= i < |fires| ==> fires[i].tick == sleeps[i].tick)
      && (forall i :: 0 <= i < |sleeps| ==> sleeps[i].end <= world.now)
      && schedule.after(Anchor(lastFired, now)) == Some(tick)
      && 0 < world.now <= |world.script| && tick <= world.script[world.now - 1].clock
    }

    /** Re-anchors to the clock and sleeps to the next tick. */
    method AwaitTick(ghost read: nat) returns (tick: int, ghost now: int, exit: Option<Exit>)
      requires Turning() && ReadFalse(read) && world.now <= Latch(world.script)
      requires forall i :: 0 <= i < |sleeps| ==> sleeps[i].end < world.now
      modifies this`seen, this`sleeps, this`exhausted, world
      ensures old(world.now) <= world.now && Receiving()
      ensures if exit.None? then AtTick(tick, now) && world.now > old(world.now) else Left(exit.value)
      ensures exit.None? || exit.value.Cut? ==> world.now <= Latch(world.script) + 2
    {
      hide Accounted, Latch, GoodFires, Lawful, OpenAt, Follows, StartedOpen, Chosen, Slept, Sleeps, WellFormed, TickDue, LastRead;
      tick, now, exit := 0, 0, None;
      if world.now == |world.script| {
        exit := Some(Cut);
        return;
      }
      var m := Look();
      now := m.clock;
      var next := schedule.after(Anchor(lastFired, m.clock));
      if next.None? {
        exhausted := true;
        exit := Some(Exhausted);
        return;
      }
      if world.now == |world.script| {
        exit := Some(Cut);
        return;
      }
      tick := next.value;
      ghost var before := sleeps;
      var wait, lastRead := SleepUntil(tick, read);
      NoteSleep(before, wait);
      if !wait.Reached? {
        exit := Some(if wait.Stopped? then Shutdown else Cut);
      }
    }

    /** One turn: re-anchor to the clock, sleep to the next tick, fire it. */
    method FireNext(ghost read: nat) returns (exit: Option<Exit>)
      requires Turning() && ReadFalse(read) && world.now <= Latch(world.script)
      requires forall i :: 0 <= i < |sleeps| ==> sleeps[i].end < world.now
      modifies this, world, lock, backend
      ensures old(world.now) <= world.now
      ensures if exit.None? then Turning() && world.now > old(world.now) else Left(exit.value)
      ensures exit.None? || exit.value.Cut? ==> world.now <= Latch(world.script) + 3
    {
      hide Accounted, Latch, GoodFires, Lawful, OpenAt, Follows, StartedOpen, Chosen, Slept, Sleeps, WellFormed, TickDue;
      var tick;
      ghost var now;
      tick, now, exit := AwaitTick(read);
      if exit.None? {
        var finished := FireTick(tick, now);
        exit := if finished then None else Some(Cut);
      }
    }

    /** The loop itself: fires tick after tick until stopped. */
    method RunJob() returns (exit: Exit)
      requires Valid() && Settled() && attempts == 0 && fires == [] && sleeps == [] && world.now == 0 && starts == []
      requires !exhausted
      modifies this, world, lock, backend
      ensures Valid()
      // Whatever the clock does, ticks fire in order, once reached, with no backlog.
      ensures GoodFires(schedule, fires)
      // No run starts once the channel carries `true` or has no senders.
      ensures StartedOpen()
      // A lasting `true` ends the loop within three further observations.
      ensures exit.Cut? ==> world.now == |world.script| <= Latch(world.script) + 3
      // Only `true` or the drop of all senders stops it.
      ensures exit.Shutdown? ==>
                0 < world.now <= |world.script| && (world.script[world.now - 1].stop || world.script[world.now - 1].closed)
      // Once the senders are gone, a later sleep stops it exactly when its tick is not due at once.
      ensures Rested() && Exits(world.script, sleeps, |fires|, exit, world.now)
      ensures forall c :: ClosedAt(world.script, c) ==> (StopsAsleep(sleeps, exit, c) <==> SomeTickNotDue(world.script, sleeps, c))
      ensures exit.Exhausted? <==> exhausted
      ensures exhausted ==> exists a :: schedule.after(a).None?
      ensures |starts| <= attempts <= |fires| <= attempts + 1
      ensures !exit.Cut? ==> Settled() && attempts == |fires|
    {
      hide Accounted, Latch, GoodFires, Lawful, OpenAt, Follows, StartedOpen, Chosen, StopsAsleep, SomeTickNotDue, ClosedAt;
      hide WellFormed, Slept, Sleeps, TickDue;
      NoSleeps(schedule, world.script);
      while true
        invariant Turning() && world.now <= Latch(world.script) + 3
        decreases |world.script| - world.now
      {
        if world.now == |world.script| {
          exit := Cut;
          break;
        }
        var m := Look();
        if m.stop {
          exit := Shutdown;
          break;
        }
        BeforeLatch(world.script, world.now - 1);
        var left := FireNext(world.now - 1);
        if left.Some? {
          exit := left.value;
          break;
        }
      }
      hide Exits;
      ExitMoment(world.script, sleeps, |fires|, exit, world.now);
      OutlivesEachClose(schedule, world.script, sleeps, |fires|, exit, world.now);
    }
  }

  // ---------------------------------------------------------------------------------------
  // A loop that outlives the close

  /** The senders are gone from the start; the clock moves on with every look. */
  function Busy(n: nat): seq<Moment> {
    seq(n, i => Moment(i, false, 0, true, true, false, false, Answer(true), Answer(())))
  }

  /** Every instant is a tick. */
  const ALWAYS := Schedule((t: int) => true, (a: int) => Some(a + 1))

  lemma {:induction false} BusyTicksAreDue(n: nat, sleeps: seq<Sleep>, fired: nat, i: nat)
    requires Sleeps(ALWAYS, Busy(n), sleeps, fired) && i < |sleeps| && sleeps[i].at < n
    ensures TickDue(Busy(n), sleeps[i])
  {
    assert Chosen(ALWAYS, Busy(n), sleeps, i);
    if i > 0 {
      assert Slept(Busy(n), sleeps[i - 1], Reached);
    }
  }

  lemma {:induction false} BusyIsCut(n: nat, sleeps: seq<Sleep>, fired: nat, exit: Exit, now: nat)
    requires Sleeps(ALWAYS, Busy(n), sleeps, fired) && Exits(Busy(n), sleeps, fired, exit, now) && !exit.Exhausted?
    ensures exit.Cut? && now == n
  {
    if |sleeps| > fired {
      BusyTicksAreDue(n, sleeps, fired, |sleeps| - 1);
    }
  }

  /** However long it is looked on, a loop whose ticks are always due is not stopped by the close. */
  method StayBusy(n: nat) returns (exit: Exit, loop: JobLoop)
    ensures loop.schedule == ALWAYS && loop.world.script == Busy(n)
    ensures exit.Cut? && loop.world.now == n
  {
    var lock := new RedisRunLock(Instance(1, 0));
    var backend := new Backend();
    var world := new World(Busy(n));
    loop := new JobLoop("job", ALWAYS, 0, world, lock, backend);
    exit := loop.RunJob();
    BusyIsCut(n, loop.sleeps, |loop.fires|, exit, world.now);
  }
}
