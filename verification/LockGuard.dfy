/**
 * Taking and releasing the run lock: the guard that owes one release, the acquire that settles
 * every reply, and the on-demand run built on both.
 */
module LockGuard {
  import opened Wrappers
  import opened Tokens

  /** How one round trip under the I/O timeout ended. */
  datatype Reply<T> = Answer(value: T) | Error | Timeout

  datatype Call = Call(job: string, token: string)

  datatype ReleaseOutcome = Released | NotHeld | ReleaseFailed | ReleaseTimedOut

  /** The calls a process has made on the lock backend. */
  class Backend {
    var claims: seq<Call>
    var unlocks: seq<Call>

    constructor ()
      ensures claims == [] && unlocks == []
    {
      claims, unlocks := [], [];
    }
  }

  class Guard {
    const job: string
    const backend: Backend
    var token: Option<string>

    constructor (job: string, token: string, backend: Backend)
      ensures this.job == job && this.backend == backend && this.token == Some(token)
    {
      this.job, this.backend, this.token := job, backend, Some(token);
    }

    /** The release the guard still owes. */
    function Owed(): seq<Call>
      reads this
    {
      if token.Some? then [Call(job, token.value)] else []
    }

    method Disarm()
      modifies this`token
      ensures Owed() == []
    {
      token := None;
    }

    method Release(reply: Reply<()>) returns (outcome: ReleaseOutcome)
      modifies this`token, backend`unlocks
      ensures Owed() == []
      ensures backend.unlocks == old(backend.unlocks) + old(Owed())
      ensures outcome.NotHeld? <==> old(Owed()) == []
      ensures outcome.Released? <==> old(Owed()) != [] && reply.Answer?
      ensures outcome.ReleaseTimedOut? <==> old(Owed()) != [] && reply.Timeout?
    {
      if token.None? {
        return NotHeld;
      }
      var taken := token.value;
      token := None;
      backend.unlocks := backend.unlocks + [Call(job, taken)];
      match reply
      case Answer(_) => outcome := Released;
      case Error => outcome := ReleaseFailed;
      case Timeout => outcome := ReleaseTimedOut;
    }

    /** The backstop: a guard dropped while armed spawns its release. */
    method Drop()
      modifies this`token, backend`unlocks
      ensures Owed() == []
      ensures backend.unlocks == old(backend.unlocks) + old(Owed())
    {
      if token.Some? {
        var taken := token.value;
        token := None;
        backend.unlocks := backend.unlocks + [Call(job, taken)];
      }
    }
  }

  datatype Acquired =
    | Taken(guard: Guard)
    | HeldElsewhere
    | AcquireFailed(released: bool)
    | AcquireTimedOut(released: bool)

  /** Every claim of this process carries the token of its own mint, in order. */
  ghost predicate Accounted(lock: RedisRunLock, backend: Backend)
    reads lock, backend
  {
    && lock.Valid() && lock.minted == |backend.claims|
    && OwnMints(lock, backend.claims) && Within(backend.unlocks, backend.claims)
  }

  ghost predicate OwnMints(lock: RedisRunLock, claims: seq<Call>) {
    forall i :: 0 <= i < |claims| ==> claims[i].token == Render(Minted(lock.instance, i))
  }

  /** `some` leaves out elements of `all` and keeps the order of the rest. */
  ghost predicate Within(some: seq<Call>, all: seq<Call>) {
    if some == [] then true
    else if all == [] then false
    else if some[|some| - 1] == all[|all| - 1] && Within(some[..|some| - 1], all[..|all| - 1]) then true
    else Within(some, all[..|all| - 1])
  }

  lemma WithinGrows(some: seq<Call>, all: seq<Call>, call: Call)
    requires Within(some, all)
    ensures Within(some, all + [call]) && Within(some + [call], all + [call])
  {
  }

  lemma AccountedIs(lock: RedisRunLock, backend: Backend)
    requires Accounted(lock, backend)
    ensures OwnMints(lock, backend.claims) && Within(backend.unlocks, backend.claims)
  {
  }

  /** One more claim under its own mint, released once or not at all, keeps the account. */
  lemma {:induction false} ClaimAccounted(lock: RedisRunLock, backend: Backend, claims: seq<Call>, unlocks: seq<Call>)
    requires lock.Valid() && lock.minted == |backend.claims| == |claims| + 1
    requires OwnMints(lock, claims) && Within(unlocks, claims)
    requires backend.claims[..|claims|] == claims && backend.claims[|claims|].token == Render(Minted(lock.instance, |claims|))
    requires backend.unlocks == unlocks || backend.unlocks == unlocks + [backend.claims[|claims|]]
    ensures Accounted(lock, backend)
  {
    hide Within, Render, Minted;
    var call := backend.claims[|claims|];
    assert backend.claims == claims + [call];
    WithinGrows(unlocks, claims, call);
  }

  /**
   * Takes the run slot under a fresh token. The guard is armed before the claim is sent; a reply
   * that does not settle the claim releases at once, a denied claim owes nothing.
   */
  method Acquire(job: string, lock: RedisRunLock, backend: Backend, reply: Reply<bool>, cleanup: Reply<()>)
    returns (result: Acquired)
    requires Accounted(lock, backend)
    modifies lock, backend
    ensures |backend.claims| == |old(backend.claims)| + 1 && backend.claims[..|old(backend.claims)|] == old(backend.claims)
    ensures backend.claims[|old(backend.claims)|].job == job
    ensures lock.Valid() && lock.minted == |backend.claims|
    ensures backend.claims[|old(backend.claims)|].token == Render(Minted(lock.instance, |old(backend.claims)|))
    ensures result.Taken? <==> reply == Answer(true)
    ensures result.HeldElsewhere? <==> reply == Answer(false)
    ensures result.AcquireFailed? <==> reply.Error?
    ensures result.AcquireTimedOut? <==> reply.Timeout?
    ensures result.Taken? ==>
              && fresh(result.guard) && result.guard.backend == backend
              && result.guard.Owed() == [backend.claims[|old(backend.claims)|]]
    ensures backend.unlocks == old(backend.unlocks)
              + if reply.Answer? then [] else [backend.claims[|old(backend.claims)|]]
    ensures result.AcquireFailed? || result.AcquireTimedOut? ==> result.released == cleanup.Answer?
  {
    var token := lock.NewToken();
    var guard := new Guard(job, token, backend);
    backend.claims := backend.claims + [Call(job, token)];
    match reply
    case Answer(won) =>
      if won {
        result := Taken(guard);
      } else {
        guard.Disarm();
        result := HeldElsewhere;
      }
    case Error =>
      var outcome := guard.Release(cleanup);
      result := AcquireFailed(outcome.Released?);
    case Timeout =>
      var outcome := guard.Release(cleanup);
      result := AcquireTimedOut(outcome.Released?);
  }

  datatype RunEnd = RunOk | RunError | DeadlinePassed | Panicked

  datatype JobError = AlreadyRunning | LockError | LockTimedOut | RunFailed | RunTimedOut | RunPanicked

  /** The releases an attempt owes once it is over: one, unless the slot was held elsewhere. */
  function Due(reply: Reply<bool>, call: Call): seq<Call> {
    if reply == Answer(false) then [] else [call]
  }

  /**
   * One on-demand run: acquire, run against the deadline, release. Whatever the backend replies and
   * however the run ends, the attempt issues exactly the releases it owes, for the key and token of
   * its own claim.
   */
  method RunOnceLocked(
    job: string, lock: RedisRunLock, backend: Backend,
    reply: Reply<bool>, cleanup: Reply<()>, run: RunEnd, release: Reply<()>)
    returns (result: Result<(), JobError>)
    requires Accounted(lock, backend)
    modifies lock, backend
    ensures Accounted(lock, backend)
    ensures |backend.claims| == |old(backend.claims)| + 1 && backend.claims[..|old(backend.claims)|] == old(backend.claims)
    ensures backend.claims[|old(backend.claims)|].job == job
    ensures backend.unlocks == old(backend.unlocks) + Due(reply, backend.claims[|old(backend.claims)|])
    ensures result.Ok? <==> reply == Answer(true) && run.RunOk?
    ensures result == Err(AlreadyRunning) <==> reply == Answer(false)
    ensures result == Err(LockError) <==> reply.Error?
    ensures result == Err(LockTimedOut) <==> reply.Timeout?
    ensures result == Err(RunTimedOut) <==> reply == Answer(true) && run.DeadlinePassed?
    ensures result == Err(RunFailed) <==> reply == Answer(true) && run.RunError?
    ensures result == Err(RunPanicked) <==> reply == Answer(true) && run.Panicked?
  {
    hide Accounted, Within;
    AccountedIs(lock, backend);
    ghost var claims, unlocks := backend.claims, backend.unlocks;
    var acquired := Acquire(job, lock, backend, reply, cleanup);
    ghost var call := backend.claims[|claims|];
    match acquired {
      case HeldElsewhere => result := Err(AlreadyRunning);
      case AcquireFailed(_) => result := Err(LockError);
      case AcquireTimedOut(_) => result := Err(LockTimedOut);
      case Taken(guard) =>
        if run.Panicked? {
          guard.Drop();
          result := Err(RunPanicked);
        } else {
          var _ := guard.Release(release);
          result := if run.RunOk? then Ok(()) else if run.RunError? then Err(RunFailed) else Err(RunTimedOut);
        }
    }
    ClaimAccounted(lock, backend, claims, unlocks);
  }

  ghost predicate DistinctTokens(calls: seq<Call>) {
    forall i, j :: 0 <= i < j < |calls| ==> calls[i].token != calls[j].token
  }

  lemma {:induction false} WithinDistinct(some: seq<Call>, all: seq<Call>)
    requires Within(some, all) && DistinctTokens(all)
    ensures DistinctTokens(some)
    ensures forall i :: 0 <= i < |some| ==> some[i] in all
  {
    if some != [] {
      var fewer, front, last := all[..|all| - 1], some[..|some| - 1], some[|some| - 1];
      if last == all[|all| - 1] && Within(front, fewer) {
        WithinDistinct(front, fewer);
        forall i | 0 <= i < |front| ensures some[i] in all && some[i].token != last.token {
          assert front[i] in fewer;
        }
        assert forall i, j :: 0 <= i < j < |front| ==> front[i].token != front[j].token;
      } else {
        WithinDistinct(some, fewer);
      }
    }
  }

  /** No token is ever released twice, nor released without having been claimed. */
  lemma {:induction false} ReleasesAreOnce(lock: RedisRunLock, backend: Backend)
    requires Accounted(lock, backend) && |backend.claims| <= COUNTER_SPAN
    ensures DistinctTokens(backend.unlocks)
    ensures forall i :: 0 <= i < |backend.unlocks| ==> backend.unlocks[i] in backend.claims
  {
    forall i, j | 0 <= i < j < |backend.claims|
      ensures backend.claims[i].token != backend.claims[j].token
    {
      MintedCollideIff(lock.instance, i, lock.instance, j);
    }
    WithinDistinct(backend.unlocks, backend.claims);
  }
}
