/**
 * The cross-process run lock of one job, as steps of any number of processes against one lock
 * server. Every process reads one shared clock that never runs backwards, in milliseconds.
 *
 * An attempt sends a claim (set if absent, with a lease), waits at most the I/O timeout for the
 * reply, runs the job under the chunked wall-clock deadline, and sends one token-scoped release.
 * Requests and releases may reach the server at any later time, or never.
 */
module LockProtocol {
  import opened Wrappers
  import opened Tokens

  const MAX_RUN: nat := 3_600_000
  const LEASE_MARGIN: nat := 60_000
  const LOCK_IO_TIMEOUT: nat := 5_000
  const LOCK_TTL: nat := MAX_RUN + LEASE_MARGIN
  const MAX_SLEEP: nat := 30_000

  /**
   * How late a process acts on a timer: `reply` past the acquire timeout, up to and including the
   * reading of the clock that starts the run; `wake` past the end of one chunk of the deadline.
   */
  datatype Lags = Lags(reply: nat, wake: nat)

  datatype Slot = Free | Held(token: string, expires: int)

  /** What became of the claim: still on the wire, handled at some time, or lost. */
  datatype Claim = Unhandled | Answered(won: bool, at: int) | Lost

  datatype Ending = Denied | Failed | TimedOut | Cancelled | Ran | Abandoned | Crashed

  datatype Phase =
    | Acquiring(sentAt: int)
    | Running(started: int, wakeAt: int)
    | Ended(how: Ending)

  /** What became of the release: not sent, on the wire, served before or after the claim was handled, or lost. */
  datatype Unlock = Unsent | OnWire | Served(last: bool) | Astray

  /** `unlocks` counts the releases issued. */
  datatype Attempt = Attempt(phase: Phase, claim: Claim, unlocks: nat, unlock: Unlock)

  datatype State = State(
    clock: int,
    slot: Slot,
    instances: map<Instance, nat>,
    attempts: map<TokenId, Attempt>)

  const Initial := State(0, Free, map[], map[])

  datatype Step =
    | Pass(until: int)
    | Spawn(instance: Instance)
    | Begin(instance: Instance)
    | ServeClaim(id: TokenId)
    | LoseClaim(id: TokenId)
    | TakeReply(id: TokenId)
    | GiveUp(id: TokenId, how: Ending)
    | Wake(id: TokenId)
    | Finish(id: TokenId)
    | Crash(id: TokenId)
    | ServeUnlock(id: TokenId)
    | LoseUnlock(id: TokenId)

  function Min(a: int, b: int): int { if a < b then a else b }

  /** A timer that is due is acted on before the clock passes its lag. */
  ghost predicate MayWait(lags: Lags, a: Attempt, t: int) {
    match a.phase
    case Acquiring(sentAt) => t <= sentAt + LOCK_IO_TIMEOUT + lags.reply
    case Running(_, wakeAt) => t <= wakeAt + lags.wake
    case Ended(_) => true
  }

  predicate Vacant(slot: Slot, clock: int) {
    slot.Free? || slot.expires <= clock
  }

  ghost predicate Enabled(lags: Lags, s: State, step: Step) {
    match step
    case Pass(until) =>
      s.clock <= until && forall id :: id in s.attempts ==> MayWait(lags, s.attempts[id], until)
    case Spawn(instance) => instance !in s.instances
    case Begin(instance) => instance in s.instances && s.instances[instance] < COUNTER_SPAN
    case ServeClaim(id) => id in s.attempts && s.attempts[id].claim.Unhandled?
    case LoseClaim(id) => id in s.attempts && s.attempts[id].claim.Unhandled?
    case TakeReply(id) =>
      id in s.attempts && s.attempts[id].phase.Acquiring? && s.attempts[id].claim.Answered?
    case GiveUp(id, how) =>
      && id in s.attempts && s.attempts[id].phase.Acquiring?
      && (how.Failed? || how.Cancelled?
          || (how.TimedOut? && s.attempts[id].phase.sentAt + LOCK_IO_TIMEOUT <= s.clock))
    case Wake(id) =>
      && id in s.attempts && s.attempts[id].phase.Running?
      && s.attempts[id].phase.wakeAt <= s.clock
    case Finish(id) => id in s.attempts && s.attempts[id].phase.Running?
    case Crash(id) => id in s.attempts && !s.attempts[id].phase.Ended?
    case ServeUnlock(id) => id in s.attempts && s.attempts[id].unlock.OnWire?
    case LoseUnlock(id) => id in s.attempts && s.attempts[id].unlock.OnWire?
  }

  /** The guard's one release: its token is taken, so no second one can follow. */
  function Release(a: Attempt, how: Ending): Attempt {
    a.(phase := Ended(how), unlocks := a.unlocks + 1, unlock := OnWire)
  }

  ghost function Apply(lags: Lags, s: State, step: Step): State
    requires Enabled(lags, s, step)
  {
    match step
    case Pass(until) => s.(clock := until)
    case Spawn(instance) => s.(instances := s.instances[instance := 0])
    case Begin(instance) =>
      var k := s.instances[instance];
      s.(instances := s.instances[instance := k + 1],
         attempts := s.attempts[Minted(instance, k) := Attempt(Acquiring(s.clock), Unhandled, 0, Unsent)])
    case ServeClaim(id) =>
      var won := Vacant(s.slot, s.clock);
      Update(s, id, s.attempts[id].(claim := Answered(won, s.clock)))
        .(slot := if won then Held(Render(id), s.clock + LOCK_TTL) else s.slot)
    case LoseClaim(id) => Update(s, id, s.attempts[id].(claim := Lost))
    case TakeReply(id) =>
      Update(s, id,
             if s.attempts[id].claim.won
             then s.attempts[id].(phase := Running(s.clock, s.clock + Min(MAX_RUN, MAX_SLEEP)))
             else s.attempts[id].(phase := Ended(Denied)))
    case GiveUp(id, how) => Update(s, id, Release(s.attempts[id], how))
    case Wake(id) =>
      var started := s.attempts[id].phase.started;
      var elapsed := s.clock - started;
      Update(s, id,
             if elapsed >= MAX_RUN then Release(s.attempts[id], Abandoned)
             else s.attempts[id].(phase := Running(started, s.clock + Min(MAX_RUN - elapsed, MAX_SLEEP))))
    case Finish(id) => Update(s, id, Release(s.attempts[id], Ran))
    case Crash(id) => Update(s, id, s.attempts[id].(phase := Ended(Crashed)))
    case ServeUnlock(id) =>
      Update(s, id, s.attempts[id].(unlock := Served(!s.attempts[id].claim.Unhandled?)))
        .(slot := if s.slot.Held? && s.slot.token == Render(id) then Free else s.slot)
    case LoseUnlock(id) => Update(s, id, s.attempts[id].(unlock := Astray))
  }

  function Update(s: State, id: TokenId, a: Attempt): State {
    s.(attempts := s.attempts[id := a])
  }

  /** The state a sequence of steps leads to; none when a step was not possible. */
  ghost function Execute(lags: Lags, s: State, steps: seq<Step>): Option<State>
    decreases |steps|
  {
    if steps == [] then Some(s)
    else if Enabled(lags, s, steps[0]) then Execute(lags, Apply(lags, s, steps[0]), steps[1..])
    else None
  }

  ghost predicate Reachable(lags: Lags, s: State) {
    exists steps :: Execute(lags, Initial, steps) == Some(s)
  }

  predicate IsRunning(s: State, id: TokenId) {
    id in s.attempts && s.attempts[id].phase.Running?
  }

  ghost predicate Exclusive(s: State) {
    forall i, j :: IsRunning(s, i) && IsRunning(s, j) ==> i == j
  }

  ghost predicate NeverOverlaps(lags: Lags) {
    forall s :: Reachable(lags, s) ==> Exclusive(s)
  }

  /** The acquire-to-run gap and the late deadline together fit the lease margin. */
  predicate FitsMargin(lags: Lags) {
    LOCK_IO_TIMEOUT + lags.reply + lags.wake < LEASE_MARGIN
  }

  // ---------------------------------------------------------------------------------------
  // The inductive invariant

  /** The attempt's claim was granted and it has not yet let go: it counts on the slot. */
  predicate Counting(a: Attempt) {
    a.phase.Running? || (a.phase.Acquiring? && a.claim.Answered? && a.claim.won)
  }

  ghost predicate AttemptInv(lags: Lags, s: State, id: TokenId, a: Attempt) {
    && id.instance in s.instances && id.counter < s.instances[id.instance]
    && (a.claim.Answered? ==> a.claim.at <= s.clock)
    && (a.phase.Acquiring? ==>
          && a.phase.sentAt <= s.clock <= a.phase.sentAt + LOCK_IO_TIMEOUT + lags.reply
          && (a.claim.Answered? ==> a.phase.sentAt <= a.claim.at))
    && (a.phase.Running? ==>
          && a.claim.Answered? && a.claim.won
          && a.claim.at <= a.phase.started <= a.claim.at + LOCK_IO_TIMEOUT + lags.reply
          && a.phase.started <= s.clock <= a.phase.wakeAt + lags.wake
          && a.phase.wakeAt <= a.phase.started + MAX_RUN)
    && (Counting(a) ==> s.slot == Held(Render(id), a.claim.at + LOCK_TTL))
    && GuardInv(a)
  }

  /** The guard has issued what it owes, and nothing is sent before that. */
  predicate GuardInv(a: Attempt) {
    a.unlocks == UnlocksDue(a.phase) && (a.unlock.Unsent? <==> a.unlocks == 0)
  }

  /** One release per guard, none while it is armed, after a denied claim or after a crash. */
  function UnlocksDue(p: Phase): nat {
    if p.Ended? && p.how != Denied && p.how != Crashed then 1 else 0
  }

  ghost predicate Inv(lags: Lags, s: State) {
    && (forall i :: i in s.instances ==> s.instances[i] <= COUNTER_SPAN)
    && forall id :: id in s.attempts ==> AttemptInv(lags, s, id, s.attempts[id])
  }

  /** While an attempt counts on the slot, its lease has not run out. */
  lemma LeaseStillRuns(lags: Lags, s: State, id: TokenId)
    requires FitsMargin(lags) && Inv(lags, s)
    requires id in s.attempts && Counting(s.attempts[id])
    ensures s.slot.Held? && s.slot.token == Render(id) && s.clock < s.slot.expires
  {
  }

  lemma {:induction false} OneCounts(lags: Lags, s: State, i: TokenId, j: TokenId)
    requires FitsMargin(lags) && Inv(lags, s)
    requires i in s.attempts && Counting(s.attempts[i])
    requires j in s.attempts && Counting(s.attempts[j])
    ensures i == j
  {
    LeaseStillRuns(lags, s, i);
    LeaseStillRuns(lags, s, j);
    RenderInjective(i, j);
  }

  lemma {:induction false} StepKeepsInv(lags: Lags, s: State, step: Step)
    requires FitsMargin(lags) && Inv(lags, s) && Enabled(lags, s, step)
    ensures Inv(lags, Apply(lags, s, step))
  {
    hide Render, Vacant, FitsMargin;
    var s' := Apply(lags, s, step);
    forall id | id in s'.attempts ensures AttemptInv(lags, s', id, s'.attempts[id]) {
      if id in s.attempts {
        AttemptKeepsInv(lags, s, step, id);
      }
    }
  }

  /** Whichever attempt a step is about, the others keep their invariant beside it. */
  lemma {:induction false} AttemptKeepsInv(lags: Lags, s: State, step: Step, id: TokenId)
    requires FitsMargin(lags) && Inv(lags, s) && Enabled(lags, s, step) && id in s.attempts
    ensures var s' := Apply(lags, s, step);
            id in s'.attempts && AttemptInv(lags, s', id, s'.attempts[id])
  {
    hide Render, Vacant, FitsMargin;
    assert AttemptInv(lags, s, id, s.attempts[id]);
    if Counting(s.attempts[id]) {
      SlotSurvives(lags, s, step, id);
    }
    if !About(step, id) {
      assert Apply(lags, s, step).attempts[id] == s.attempts[id];
    }
  }

  /** A step of this attempt, of the server on its behalf, or of time. */
  predicate About(step: Step, id: TokenId) {
    match step
    case Pass(_) => true
    case Spawn(_) => false
    case Begin(_) => true
    case ServeClaim(i) => i == id
    case LoseClaim(i) => i == id
    case TakeReply(i) => i == id
    case GiveUp(i, _) => i == id
    case Wake(i) => i == id
    case Finish(i) => i == id
    case Crash(i) => i == id
    case ServeUnlock(i) => i == id
    case LoseUnlock(i) => i == id
  }

  /** No step takes the slot away from an attempt that counts on it. */
  lemma {:induction false} SlotSurvives(lags: Lags, s: State, step: Step, id: TokenId)
    requires FitsMargin(lags) && Inv(lags, s) && Enabled(lags, s, step)
    requires id in s.attempts && Counting(s.attempts[id])
    ensures Apply(lags, s, step).slot == s.slot
  {
    LeaseStillRuns(lags, s, id);
    assert AttemptInv(lags, s, id, s.attempts[id]);
    if step.ServeUnlock? {
      assert AttemptInv(lags, s, step.id, s.attempts[step.id]);
      if Render(step.id) == Render(id) {
        RenderInjective(step.id, id);
      }
    }
  }

  lemma {:induction false} ExecuteKeepsInv(lags: Lags, s: State, steps: seq<Step>)
    requires FitsMargin(lags) && Inv(lags, s)
    ensures Execute(lags, s, steps).Some? ==> Inv(lags, Execute(lags, s, steps).value)
    decreases |steps|
  {
    if steps != [] && Enabled(lags, s, steps[0]) {
      StepKeepsInv(lags, s, steps[0]);
      ExecuteKeepsInv(lags, Apply(lags, s, steps[0]), steps[1..]);
    }
  }

  lemma {:induction false} ReachableInv(lags: Lags, s: State)
    requires FitsMargin(lags) && Reachable(lags, s)
    ensures Inv(lags, s)
  {
    var steps :| Execute(lags, Initial, steps) == Some(s);
    ExecuteKeepsInv(lags, Initial, steps);
  }

  // ---------------------------------------------------------------------------------------
  // Safety over every run

  /** Every run is still inside its own lease, whatever the other processes do. */
  lemma {:induction false} RunsInsideLease(lags: Lags, s: State, id: TokenId)
    requires FitsMargin(lags) && Reachable(lags, s) && IsRunning(s, id)
    ensures s.attempts[id].claim.Answered?
    ensures s.clock < s.attempts[id].claim.at + LOCK_TTL
    ensures s.slot == Held(Render(id), s.attempts[id].claim.at + LOCK_TTL)
  {
    ReachableInv(lags, s);
    LeaseStillRuns(lags, s, id);
    assert AttemptInv(lags, s, id, s.attempts[id]);
  }

  lemma {:induction false} FittingMarginExcludes(lags: Lags)
    requires FitsMargin(lags)
    ensures NeverOverlaps(lags)
  {
    forall s | Reachable(lags, s) ensures Exclusive(s) {
      ReachableInv(lags, s);
      forall i, j | IsRunning(s, i) && IsRunning(s, j) ensures i == j {
        OneCounts(lags, s, i, j);
      }
    }
  }

  /** However late a release lands, and whatever the lags, no other attempt's slot is freed by it. */
  lemma {:induction false} LateReleaseIsHarmless(lags: Lags, s: State, id: TokenId, other: TokenId)
    requires Enabled(lags, s, ServeUnlock(id)) && other != id
    requires s.slot.Held? && s.slot.token == Render(other)
    ensures Apply(lags, s, ServeUnlock(id)).slot == s.slot
  {
    if Render(id) == Render(other) {
      RenderInjective(id, other);
    }
  }

  ghost predicate GuardsInv(s: State) {
    forall id :: id in s.attempts ==> GuardInv(s.attempts[id])
  }

  lemma {:induction false} ExecuteKeepsGuards(lags: Lags, s: State, steps: seq<Step>)
    requires GuardsInv(s)
    ensures Execute(lags, s, steps).Some? ==> GuardsInv(Execute(lags, s, steps).value)
    decreases |steps|
  {
    hide Render, Vacant;
    if steps != [] && Enabled(lags, s, steps[0]) {
      ExecuteKeepsGuards(lags, Apply(lags, s, steps[0]), steps[1..]);
    }
  }

  /** Each guard sends the release it owes and no more, and never while its run is on. */
  lemma {:induction false} OneReleasePerGuard(lags: Lags, s: State, id: TokenId)
    requires Reachable(lags, s) && id in s.attempts
    ensures s.attempts[id].unlocks == UnlocksDue(s.attempts[id].phase)
    ensures s.attempts[id].unlock.Unsent? <==> UnlocksDue(s.attempts[id].phase) == 0
  {
    var steps :| Execute(lags, Initial, steps) == Some(s);
    ExecuteKeepsGuards(lags, Initial, steps);
  }

  /** A step that ends an attempt owing a release puts it on the wire; only the server takes it off. */
  lemma SentWhenOwed(lags: Lags, s: State, step: Step, id: TokenId)
    requires Enabled(lags, s, step) && GuardsInv(s) && id in s.attempts && id in Apply(lags, s, step).attempts
    requires step != ServeUnlock(id) && step != LoseUnlock(id) && !step.Begin?
    ensures var before, after := s.attempts[id], Apply(lags, s, step).attempts[id];
            after.unlock == if UnlocksDue(after.phase) > UnlocksDue(before.phase) then OnWire else before.unlock
  {
    assert GuardInv(s.attempts[id]);
  }

  // ---------------------------------------------------------------------------------------
  // A release frees the slot

  /** The tokens seen are of calls made, and a slot whose holder's release came last is not held by it. */
  ghost predicate FreedInv(s: State, id: TokenId)
    requires id in s.attempts
  {
    && id.instance in s.instances && id.counter < s.instances[id.instance] <= COUNTER_SPAN
    && (s.attempts[id].unlock == Served(true) ==>
          !s.attempts[id].claim.Unhandled? && (s.slot.Held? ==> s.slot.token != Render(id)))
  }

  ghost predicate AllFreed(s: State) {
    forall id :: id in s.attempts ==> FreedInv(s, id)
  }

  lemma StepKeepsFreed(lags: Lags, s: State, step: Step, id: TokenId)
    requires AllFreed(s) && Enabled(lags, s, step) && id in s.attempts
    ensures id in Apply(lags, s, step).attempts && FreedInv(Apply(lags, s, step), id)
  {
    hide Render, Vacant;
    assert FreedInv(s, id);
    if step.ServeClaim? && Render(step.id) == Render(id) {
      RenderInjective(step.id, id);
    }
  }

  lemma {:induction false} ExecuteKeepsFreed(lags: Lags, s: State, steps: seq<Step>)
    requires AllFreed(s)
    ensures Execute(lags, s, steps).Some? ==> AllFreed(Execute(lags, s, steps).value)
    decreases |steps|
  {
    hide Render, Vacant;
    if steps != [] && Enabled(lags, s, steps[0]) {
      var s' := Apply(lags, s, steps[0]);
      forall id | id in s'.attempts ensures FreedInv(s', id) {
        if id in s.attempts {
          StepKeepsFreed(lags, s, steps[0], id);
        }
      }
      ExecuteKeepsFreed(lags, s', steps[1..]);
    }
  }

  /**
   * Whatever the lags, a release that is served once its claim has been handled leaves the slot
   * free of its token for good.
   */
  lemma ServedReleaseFrees(lags: Lags, s: State, id: TokenId)
    requires Reachable(lags, s) && id in s.attempts && s.attempts[id].unlock == Served(true)
    ensures s.slot.Held? ==> s.slot.token != Render(id)
  {
    var steps :| Execute(lags, Initial, steps) == Some(s);
    ExecuteKeepsFreed(lags, Initial, steps);
    assert FreedInv(s, id);
  }

  ghost predicate NoClaimServed(steps: seq<Step>) {
    forall i :: 0 <= i < |steps| ==> !steps[i].ServeClaim?
  }

  /** Without claims served, a slot is kept or freed. */
  lemma {:induction false} SlotKeptOrFreed(lags: Lags, s: State, steps: seq<Step>)
    requires NoClaimServed(steps) && Execute(lags, s, steps).Some?
    ensures Execute(lags, s, steps).value.slot == s.slot || Execute(lags, s, steps).value.slot.Free?
    decreases |steps|
  {
    hide Render, Vacant;
    if steps != [] {
      assert !steps[0].ServeClaim?;
      SlotKeptOrFreed(lags, Apply(lags, s, steps[0]), steps[1..]);
    }
  }

  /**
   * Once the holder's release is served, and with no claim served in between, the next claim is
   * granted a full lease, however much of the old one is left.
   */
  lemma NextClaimIsGranted(lags: Lags, s: State, steps: seq<Step>, id: TokenId, next: TokenId)
    requires Reachable(lags, s) && s.slot.Held? && s.slot.token == Render(id)
    requires NoClaimServed(steps) && Execute(lags, s, steps).Some?
    requires var s' := Execute(lags, s, steps).value;
             id in s'.attempts && s'.attempts[id].unlock == Served(true) && Enabled(lags, s', ServeClaim(next))
    ensures var s' := Execute(lags, s, steps).value;
            var after := Apply(lags, s', ServeClaim(next));
            && after.attempts[next].claim == Answered(true, s'.clock)
            && after.slot == Held(Render(next), s'.clock + LOCK_TTL)
  {
    var s' := Execute(lags, s, steps).value;
    var begun :| Execute(lags, Initial, begun) == Some(s);
    ExecuteThen(lags, Initial, begun, steps);
    assert Execute(lags, Initial, begun + steps) == Some(s');
    ServedReleaseFrees(lags, s', id);
    SlotKeptOrFreed(lags, s, steps);
  }

  // ---------------------------------------------------------------------------------------
  // The margin is sharp

  lemma {:induction false} ExecuteThen(lags: Lags, s: State, first: seq<Step>, rest: seq<Step>)
    requires Execute(lags, s, first).Some?
    ensures Execute(lags, s, first + rest) == Execute(lags, Execute(lags, s, first).value, rest)
    decreases |first|
  {
    if first == [] {
      assert first + rest == rest;
    } else {
      assert (first + rest)[0] == first[0] && (first + rest)[1..] == first[1..] + rest;
      ExecuteThen(lags, Apply(lags, s, first[0]), first[1..], rest);
    }
  }

  lemma {:induction false} ReachableStep(lags: Lags, s: State, step: Step)
    requires Reachable(lags, s) && Enabled(lags, s, step)
    ensures Reachable(lags, Apply(lags, s, step))
  {
    var steps :| Execute(lags, Initial, steps) == Some(s);
    ExecuteThen(lags, Initial, steps, [step]);
    var last := [step];
    assert last[1..] == [];
    assert Execute(lags, s, last) == Execute(lags, Apply(lags, s, step), []);
  }

  const PROCESS := Instance(1, 0)

  /** A run taken as late as `reply` allows, about to sleep its `k`-th whole chunk. */
  function LateRun(lags: Lags, k: nat): State {
    var begun := LOCK_IO_TIMEOUT + lags.reply;
    State(begun + k * MAX_SLEEP, Held(Render(TokenId(PROCESS, 0)), LOCK_TTL), map[PROCESS := 1],
          map[TokenId(PROCESS, 0) :=
                Attempt(Running(begun, begun + (k + 1) * MAX_SLEEP), Answered(true, 0), 0, Unsent)])
  }

  lemma {:induction false} LateRunStarts(lags: Lags)
    ensures Reachable(lags, LateRun(lags, 0))
  {
    var id := TokenId(PROCESS, 0);
    assert Execute(lags, Initial, []) == Some(Initial);
    var s1 := Initial.(instances := map[PROCESS := 0]);
    ReachableStep(lags, Initial, Spawn(PROCESS));
    var s2 := s1.(instances := map[PROCESS := 1], attempts := map[id := Attempt(Acquiring(0), Unhandled, 0, Unsent)]);
    assert Apply(lags, s1, Begin(PROCESS)) == s2;
    ReachableStep(lags, s1, Begin(PROCESS));
    var s3 := s2.(slot := Held(Render(id), LOCK_TTL),
      attempts := map[id := Attempt(Acquiring(0), Answered(true, 0), 0, Unsent)]);
    assert Apply(lags, s2, ServeClaim(id)) == s3;
    ReachableStep(lags, s2, ServeClaim(id));
    var s4 := s3.(clock := LOCK_IO_TIMEOUT + lags.reply);
    ReachableStep(lags, s3, Pass(LOCK_IO_TIMEOUT + lags.reply));
    assert Apply(lags, s4, TakeReply(id)) == LateRun(lags, 0);
    ReachableStep(lags, s4, TakeReply(id));
  }

  lemma {:induction false} LateRunSleepsOn(lags: Lags, k: nat)
    requires (k + 1) * MAX_SLEEP <= MAX_RUN
    ensures Reachable(lags, LateRun(lags, k))
  {
    hide Render, Reachable;
    if k == 0 {
      LateRunStarts(lags);
    } else {
      LateRunSleepsOn(lags, k - 1);
      var s, id := LateRun(lags, k - 1), TokenId(PROCESS, 0);
      var woken := s.(clock := LOCK_IO_TIMEOUT + lags.reply + k * MAX_SLEEP);
      assert Apply(lags, s, Pass(woken.clock)) == woken;
      ReachableStep(lags, s, Pass(woken.clock));
      assert Apply(lags, woken, Wake(id)) == LateRun(lags, k);
      ReachableStep(lags, woken, Wake(id));
    }
  }

  /** A margin the lags use up lets a second run start beside the first. */
  lemma {:induction false} UsedUpMarginOverlaps(lags: Lags)
    requires !FitsMargin(lags)
    ensures !NeverOverlaps(lags)
  {
    var last := MAX_RUN / MAX_SLEEP - 1;
    LateRunSleepsOn(lags, last);
    var s, id, rival := LateRun(lags, last), TokenId(PROCESS, 0), TokenId(PROCESS, 1);
    var late := LOCK_IO_TIMEOUT + lags.reply + MAX_RUN + lags.wake;
    var s1 := s.(clock := late);
    ReachableStep(lags, s, Pass(late));
    var s2 := s1.(instances := map[PROCESS := 2],
      attempts := s1.attempts[rival := Attempt(Acquiring(late), Unhandled, 0, Unsent)]);
    assert Apply(lags, s1, Begin(PROCESS)) == s2;
    ReachableStep(lags, s1, Begin(PROCESS));
    var s3 := Apply(lags, s2, ServeClaim(rival));
    ReachableStep(lags, s2, ServeClaim(rival));
    var s4 := Apply(lags, s3, TakeReply(rival));
    ReachableStep(lags, s3, TakeReply(rival));
    assert IsRunning(s4, id) && IsRunning(s4, rival);
  }

  /** Runs of the job never overlap exactly when the lags leave part of the margin unused. */
  lemma {:induction false} MutualExclusionIff(lags: Lags)
    ensures NeverOverlaps(lags) <==> FitsMargin(lags)
  {
    if FitsMargin(lags) {
      FittingMarginExcludes(lags);
    } else {
      UsedUpMarginOverlaps(lags);
    }
  }
}
