/**
 * One run under the lock, scheduled or on demand, as a process carries it out among all the others:
 * every part of it is a step of the lock protocol.
 */
module LockAttempts {
  import opened Wrappers
  import opened Tokens
  import opened LockProtocol
  import LockGuard

  /**
   * What an attempt meets: the steps of the server and of other processes before its reply and in
   * each round of its run, whether the acquire fails, and the rounds in which the job is done or
   * shutdown is seen.
   */
  datatype Weather = Weather(before: seq<Step>, fails: bool, rounds: nat, others: nat -> seq<Step>, ends: nat -> bool)

  /** A step that the process of this attempt takes itself. */
  predicate Own(step: Step, id: TokenId) {
    match step
    case TakeReply(i) => i == id
    case GiveUp(i, _) => i == id
    case Wake(i) => i == id
    case Finish(i) => i == id
    case Crash(i) => i == id
    case _ => false
  }

  /** The reply of the lock backend that the code saw, for an attempt that ended so. */
  function ReplyOf(how: Ending): LockGuard.Reply<bool> {
    match how
    case Denied => LockGuard.Answer(false)
    case Failed => LockGuard.Error
    case TimedOut | Cancelled => LockGuard.Timeout
    case Ran | Abandoned | Crashed => LockGuard.Answer(true)
  }

  class Process {
    const lags: Lags
    const instance: Instance
    /** The lock server and every process. */
    ghost var s: State

    ghost predicate Valid()
      reads this
    {
      Reachable(lags, s) && instance in s.instances
    }

    constructor (lags: Lags, instance: Instance)
      ensures Valid() && this.lags == lags && this.instance == instance
    {
      this.lags, this.instance, s := lags, instance, Initial.(instances := map[instance := 0]);
      new;
      assert Execute(lags, Initial, []) == Some(Initial);
      ReachableStep(lags, Initial, Spawn(instance));
    }

    /** This process's attempt stands so, and its token is not minted again. */
    ghost predicate Standing(id: TokenId, phase: Phase)
      reads this
    {
      && Valid() && id in s.attempts && s.attempts[id].phase == phase && GuardInv(s.attempts[id])
      && id.instance == instance && id.counter < s.instances[instance]
    }

    ghost method Do(step: Step)
      requires Valid() && Enabled(lags, s, step)
      modifies this
      ensures Valid() && s == Apply(lags, old(s), step)
    {
      ReachableStep(lags, s, step);
      s := Apply(lags, s, step);
    }

    /** The server and the other processes move on, and may pass time. */
    ghost method Others(id: TokenId, phase: Phase, steps: seq<Step>)
      requires Standing(id, phase)
      modifies this
      ensures Standing(id, phase) && old(s.clock) <= s.clock
    {
      hide Reachable, Render, Vacant;
      for i := 0 to |steps|
        invariant Standing(id, phase) && old(s.clock) <= s.clock
      {
        if !Own(steps[i], id) && Enabled(lags, s, steps[i]) {
          Do(steps[i]);
        }
      }
    }

    /** Sends a claim under a fresh token. */
    ghost method Claim() returns (id: TokenId)
      requires Valid() && s.instances[instance] < COUNTER_SPAN
      modifies this
      ensures id == Minted(instance, old(s.instances[instance])) && Standing(id, Acquiring(s.clock))
    {
      hide Reachable, Render;
      id := Minted(instance, s.instances[instance]);
      Do(Begin(instance));
    }

    /** Waits for the reply: runs when the claim was granted, and otherwise settles it at once. */
    ghost method AwaitReply(id: TokenId, sentAt: int, w: Weather)
      requires Standing(id, Acquiring(sentAt))
      modifies this
      ensures id in s.attempts
      ensures var phase := s.attempts[id].phase;
              Standing(id, phase) && (phase.Running? || (phase.Ended? && phase.how in {Denied, Failed, TimedOut, Cancelled}))
    {
      hide Reachable, Render, Vacant;
      Others(id, Acquiring(sentAt), w.before);
      if w.fails {
        Do(GiveUp(id, Failed));
      } else if s.attempts[id].claim.Answered? {
        Do(TakeReply(id));
      } else {
        Do(GiveUp(id, if sentAt + LOCK_IO_TIMEOUT <= s.clock then TimedOut else Cancelled));
      }
    }

    /** One round of a run: it ends by itself, or by the first wake past the deadline. */
    ghost method Round(id: TokenId, phase: Phase, w: Weather, round: nat)
      requires phase.Running? && Standing(id, phase)
      modifies this
      ensures id in s.attempts
      ensures var next := s.attempts[id].phase;
              && Standing(id, next)
              && (next.Running? || next == Ended(Ran) || next == Ended(Abandoned))
              && (next.Running? ==> next.started == phase.started && !w.ends(round))
              && (next == Ended(Abandoned) ==> s.clock - phase.started >= MAX_RUN)
    {
      hide Reachable, Render, Vacant;
      Others(id, phase, w.others(round));
      if w.ends(round) {
        Do(Finish(id));
      } else if phase.wakeAt <= s.clock {
        Do(Wake(id));
      }
    }

    /**
     * A whole attempt. Its protocol ends as the code's does: with as many releases as the reply
     * leaves it owing, and abandoned only past the deadline.
     */
    ghost method Attempt(w: Weather) returns (id: TokenId)
      requires Valid() && s.instances[instance] < COUNTER_SPAN
      modifies this
      ensures id == Minted(instance, old(s.instances[instance])) && id in s.attempts
      ensures var phase := s.attempts[id].phase;
              && Standing(id, phase) && (phase.Running? || phase.Ended?)
              && (phase.Ended? ==> forall call :: s.attempts[id].unlocks == |LockGuard.Due(ReplyOf(phase.how), call)|)
              && (phase.Running? ==> s.attempts[id].unlocks == 0)
    {
      hide Reachable, Render, Vacant;
      id := Claim();
      AwaitReply(id, s.clock, w);
      for round := 0 to w.rounds
        invariant id in s.attempts && Standing(id, s.attempts[id].phase)
        invariant var phase := s.attempts[id].phase; phase.Running? || (phase.Ended? && !phase.how.Crashed?)
      {
        var phase := s.attempts[id].phase;
        if phase.Running? {
          Round(id, phase, w, round);
        }
      }
    }
  }
}
