/**
 * The media concurrency gates: any number of queued and fail-fast callers over one pool of permits,
 * as steps that may interleave in any order. Each queued gate keeps its own count of waiting callers.
 */
module MediaGate {
  import opened Wrappers

  /**
   * Where a call stands. `Rejected` has counted itself and found the queue full; `Leaving` has been
   * granted a permit, timed out or been cancelled, and its guard has yet to drop.
   */
  datatype Stage = Trying | Entering | Rejected | Parked | Leaving(granted: bool) | Holding | Gone

  /** A call on a queued gate, or on a fail-fast one. */
  datatype Caller = Caller(gate: Option<nat>, stage: Stage)

  datatype Gate = Gate(maxWaiting: nat, waiting: int)

  datatype State = State(capacity: nat, free: int, gates: map<nat, Gate>, callers: map<nat, Caller>)

  datatype Step =
    | Call(id: nat, gate: Option<nat>)
    | Try(id: nat)
    | Enter(id: nat)
    | Undo(id: nat)
    | Grant(id: nat)
    | GiveUp(id: nat)
    | DropGuard(id: nat)
    | Release(id: nat)

  predicate Enabled(s: State, step: Step) {
    match step
    case Call(id, gate) => id !in s.callers && (gate.Some? ==> gate.value in s.gates)
    case Try(id) => id in s.callers && s.callers[id].stage.Trying?
    case Enter(id) => id in s.callers && s.callers[id].stage.Entering? && Queues(s, id)
    case Undo(id) => id in s.callers && s.callers[id].stage.Rejected? && Queues(s, id)
    case Grant(id) => id in s.callers && s.callers[id].stage.Parked? && s.free > 0
    case GiveUp(id) => id in s.callers && (s.callers[id].stage.Parked? || s.callers[id].stage == Leaving(true))
    case DropGuard(id) => id in s.callers && s.callers[id].stage.Leaving? && Queues(s, id)
    case Release(id) => id in s.callers && s.callers[id].stage.Holding?
  }

  predicate Queues(s: State, id: nat)
    requires id in s.callers
  {
    s.callers[id].gate.Some? && s.callers[id].gate.value in s.gates
  }

  function At(s: State, id: nat, stage: Stage): State
    requires id in s.callers
  {
    s.(callers := s.callers[id := s.callers[id].(stage := stage)])
  }

  function Count(s: State, id: nat, delta: int): State
    requires id in s.callers && Queues(s, id)
  {
    var g := s.callers[id].gate.value;
    s.(gates := s.gates[g := s.gates[g].(waiting := s.gates[g].waiting + delta)])
  }

  function Apply(s: State, step: Step): State
    requires Enabled(s, step)
  {
    match step
    case Call(id, gate) => s.(callers := s.callers[id := Caller(gate, Trying)])
    case Try(id) =>
      if s.free > 0 then At(s, id, Holding).(free := s.free - 1)
      else if s.callers[id].gate.None? || s.capacity == 0 then At(s, id, Gone)
      else At(s, id, Entering)
    case Enter(id) =>
      var g := s.gates[s.callers[id].gate.value];
      At(Count(s, id, 1), id, if g.waiting >= g.maxWaiting then Rejected else Parked)
    case Undo(id) => At(Count(s, id, -1), id, Gone)
    case Grant(id) => At(s, id, Leaving(true)).(free := s.free - 1)
    case GiveUp(id) =>
      At(s, id, Leaving(false)).(free := s.free + if s.callers[id].stage.Leaving? then 1 else 0)
    case DropGuard(id) => At(Count(s, id, -1), id, if s.callers[id].stage.granted then Holding else Gone)
    case Release(id) => At(s, id, Gone).(free := s.free + 1)
  }

  function Execute(s: State, steps: seq<Step>): Option<State>
    decreases |steps|
  {
    if steps == [] then Some(s)
    else if Enabled(s, steps[0]) then Execute(Apply(s, steps[0]), steps[1..])
    else None
  }

  /** A pool with all its permits free, and gates nobody waits at. */
  predicate Fresh(s: State) {
    s.free == s.capacity && s.callers == map[] && forall g :: g in s.gates ==> s.gates[g].waiting == 0
  }

  ghost predicate Reachable(s: State) {
    exists start, steps :: Fresh(start) && Execute(start, steps) == Some(s)
  }

  // ---------------------------------------------------------------------------------------
  // Counting callers

  function Who(callers: map<nat, Caller>, p: Caller -> bool): set<nat> {
    set id | id in callers && p(callers[id])
  }

  const HasPermit: Caller -> bool := (c: Caller) => c.stage.Holding? || c.stage == Leaving(true)

  /** Callers this gate has counted and not yet let go of. */
  function CountedAt(g: nat): Caller -> bool {
    (c: Caller) => c.gate == Some(g) && (c.stage.Rejected? || c.stage.Parked? || c.stage.Leaving?)
  }

  /** Callers in this gate's queue: parked, or about to leave it. */
  function QueuedAt(g: nat): Caller -> bool {
    (c: Caller) => c.gate == Some(g) && (c.stage.Parked? || c.stage.Leaving?)
  }

  function RejectedAt(g: nat): Caller -> bool {
    (c: Caller) => c.gate == Some(g) && c.stage.Rejected?
  }

  function One(b: bool): int { if b then 1 else 0 }

  lemma {:induction false} WhoAfter(callers: map<nat, Caller>, id: nat, c: Caller, p: Caller -> bool)
    ensures |Who(callers[id := c], p)| == |Who(callers, p)| + One(p(c)) - One(id in callers && p(callers[id]))
  {
    var others := Who(callers, p) - {id};
    assert Who(callers[id := c], p) == if p(c) then others + {id} else others;
    assert Who(callers, p) == if id in callers && p(callers[id]) then others + {id} else others;
  }

  ghost predicate GateInv(s: State, g: nat)
    requires g in s.gates
  {
    && s.gates[g].waiting == |Who(s.callers, CountedAt(g))|
    && s.gates[g].waiting == |Who(s.callers, QueuedAt(g))| + |Who(s.callers, RejectedAt(g))|
    && |Who(s.callers, QueuedAt(g))| <= s.gates[g].maxWaiting
  }

  /** Only callers of a known gate go through its queue. */
  predicate CallerInv(s: State, c: Caller) {
    && (c.gate.Some? ==> c.gate.value in s.gates)
    && (c.gate.None? ==> c.stage.Trying? || c.stage.Holding? || c.stage.Gone?)
  }

  ghost predicate Inv(s: State) {
    && s.free >= 0 && s.free + |Who(s.callers, HasPermit)| == s.capacity
    && (forall g :: g in s.gates ==> GateInv(s, g))
    && (forall id :: id in s.callers ==> CallerInv(s, s.callers[id]))
  }

  /** A step moves one caller; only that caller's own gate counts it. */
  lemma {:induction false} StepMovesOne(s: State, step: Step, g: nat)
    requires Inv(s) && Enabled(s, step) && g in s.gates
    ensures step.id in Apply(s, step).callers
    ensures Apply(s, step).callers == s.callers[step.id := Apply(s, step).callers[step.id]]
    ensures g in Apply(s, step).gates && Apply(s, step).gates[g].maxWaiting == s.gates[g].maxWaiting
    ensures var c' := Apply(s, step).callers[step.id];
            var was := step.id in s.callers;
            && Apply(s, step).gates[g].waiting - s.gates[g].waiting
                 == One(CountedAt(g)(c')) - One(was && CountedAt(g)(s.callers[step.id]))
            && (QueuedAt(g)(c') ==> (was && QueuedAt(g)(s.callers[step.id])) || s.gates[g].waiting < s.gates[g].maxWaiting)
            && CallerInv(Apply(s, step), c')
  {
    hide Who, GateInv;
    assert step.id in s.callers ==> CallerInv(s, s.callers[step.id]);
  }

  /** What moving one caller does to the counts at a gate; counted is queued or rejected. */
  lemma {:induction false} CountsAfter(callers: map<nat, Caller>, id: nat, c: Caller, g: nat)
    ensures var after, was := callers[id := c], id in callers;
            && |Who(after, CountedAt(g))| == |Who(callers, CountedAt(g))| + One(CountedAt(g)(c)) - One(was && CountedAt(g)(callers[id]))
            && |Who(after, QueuedAt(g))| == |Who(callers, QueuedAt(g))| + One(QueuedAt(g)(c)) - One(was && QueuedAt(g)(callers[id]))
            && |Who(after, CountedAt(g))| - |Who(after, QueuedAt(g))| - |Who(after, RejectedAt(g))|
                 == |Who(callers, CountedAt(g))| - |Who(callers, QueuedAt(g))| - |Who(callers, RejectedAt(g))|
  {
    hide Who;
    WhoAfter(callers, id, c, CountedAt(g));
    WhoAfter(callers, id, c, QueuedAt(g));
    WhoAfter(callers, id, c, RejectedAt(g));
  }

  lemma {:induction false} GateAfter(s: State, step: Step, g: nat)
    requires Inv(s) && Enabled(s, step) && g in s.gates
    ensures g in Apply(s, step).gates && GateInv(Apply(s, step), g)
  {
    hide Who, Apply, Enabled, CountedAt, QueuedAt, RejectedAt, CallerInv;
    StepMovesOne(s, step, g);
    assert GateInv(s, g);
    CountsAfter(s.callers, step.id, Apply(s, step).callers[step.id], g);
  }

  lemma {:induction false} PermitsAfter(s: State, step: Step)
    requires Inv(s) && Enabled(s, step)
    ensures var s' := Apply(s, step);
            s'.free >= 0 && s'.free + |Who(s'.callers, HasPermit)| == s'.capacity
  {
    hide Who, GateInv, CallerInv;
    var c := Apply(s, step).callers[step.id];
    assert Apply(s, step).callers == s.callers[step.id := c];
    WhoAfter(s.callers, step.id, c, HasPermit);
  }

  lemma {:induction false} CallersAfter(s: State, step: Step)
    requires Inv(s) && Enabled(s, step)
    ensures forall id :: id in Apply(s, step).callers ==> CallerInv(Apply(s, step), Apply(s, step).callers[id])
  {
    hide Who, GateInv;
    forall id | id in Apply(s, step).callers ensures CallerInv(Apply(s, step), Apply(s, step).callers[id]) {
      assert id in s.callers ==> CallerInv(s, s.callers[id]);
    }
  }

  lemma {:induction false} StepKeepsInv(s: State, step: Step)
    requires Inv(s) && Enabled(s, step)
    ensures Inv(Apply(s, step))
  {
    PermitsAfter(s, step);
    CallersAfter(s, step);
    forall g | g in Apply(s, step).gates ensures GateInv(Apply(s, step), g) {
      GateAfter(s, step, g);
    }
  }

  lemma {:induction false} ExecuteKeepsInv(s: State, steps: seq<Step>)
    requires Inv(s)
    ensures Execute(s, steps).Some? ==> Inv(Execute(s, steps).value)
    decreases |steps|
  {
    if steps != [] && Enabled(s, steps[0]) {
      StepKeepsInv(s, steps[0]);
      ExecuteKeepsInv(Apply(s, steps[0]), steps[1..]);
    }
  }

  lemma {:induction false} ReachableInv(s: State)
    requires Reachable(s)
    ensures Inv(s)
  {
    var start, steps :| Fresh(start) && Execute(start, steps) == Some(s);
    assert Who(start.callers, HasPermit) == {};
    forall g | g in start.gates ensures GateInv(start, g) {
      assert Who(start.callers, CountedAt(g)) == {} == Who(start.callers, QueuedAt(g)) == Who(start.callers, RejectedAt(g));
    }
    ExecuteKeepsInv(start, steps);
  }

  // ---------------------------------------------------------------------------------------
  // What every interleaving keeps

  /** No permit is lost or made up, so no more callers hold one than the pool has. */
  lemma {:induction false} PermitsConserved(s: State)
    requires Reachable(s)
    ensures s.free >= 0 && s.free + |Who(s.callers, HasPermit)| == s.capacity
  {
    ReachableInv(s);
  }

  /**
   * The queue never outgrows its cap, although its counter may: the excess is callers that were
   * turned away and have yet to count themselves out.
   */
  lemma {:induction false} QueueIsBounded(s: State, g: nat)
    requires Reachable(s) && g in s.gates
    ensures |Who(s.callers, QueuedAt(g))| <= s.gates[g].maxWaiting
    ensures s.gates[g].waiting == |Who(s.callers, QueuedAt(g))| + |Who(s.callers, RejectedAt(g))|
  {
    ReachableInv(s);
    assert GateInv(s, g);
  }

  /** A call is granted at once when a permit is free, refused at once when it may not or need not wait, and queues otherwise. */
  lemma TryDecides(s: State, id: nat)
    requires Reachable(s) && Enabled(s, Try(id))
    ensures var held := |Who(s.callers, HasPermit)|;
            var stage := Apply(s, Try(id)).callers[id].stage;
            && (stage.Holding? <==> held < s.capacity)
            && (stage.Gone? <==> held == s.capacity && (s.callers[id].gate.None? || s.capacity == 0))
            && (stage.Entering? <==> held == s.capacity && s.callers[id].gate.Some? && s.capacity > 0)
  {
    hide Who;
    ReachableInv(s);
  }

  /** A caller is parked exactly when the queue, with those yet to count themselves out, has room; else it is turned away. */
  lemma EnterDecides(s: State, id: nat)
    requires Reachable(s) && Enabled(s, Enter(id))
    ensures var g := s.callers[id].gate.value;
            var stage := Apply(s, Enter(id)).callers[id].stage;
            && (stage.Parked? <==> |Who(s.callers, QueuedAt(g))| + |Who(s.callers, RejectedAt(g))| < s.gates[g].maxWaiting)
            && (stage.Parked? || stage.Rejected?)
  {
    hide Who;
    ReachableInv(s);
    assert GateInv(s, s.callers[id].gate.value);
  }

  /** A parked caller is granted a freed permit and then holds it; one turned away is gone once it has counted itself out. */
  lemma WaitEnds(s: State, id: nat)
    requires Reachable(s) && id in s.callers
    ensures s.callers[id].stage.Parked? && |Who(s.callers, HasPermit)| < s.capacity ==>
              && Enabled(s, Grant(id)) && Enabled(Apply(s, Grant(id)), DropGuard(id))
              && var after := Apply(Apply(s, Grant(id)), DropGuard(id));
                 after.callers[id].stage.Holding? && after.free == s.free - 1
    ensures s.callers[id].stage.Rejected? ==>
              Enabled(s, Undo(id)) && Apply(s, Undo(id)).callers[id].stage.Gone? && Apply(s, Undo(id)).free == s.free
  {
    hide Who;
    ReachableInv(s);
    assert CallerInv(s, s.callers[id]);
  }

  /** However its callers left, an idle gate's counter is back at zero. */
  lemma {:induction false} IdleGateCountsZero(s: State, g: nat)
    requires Reachable(s) && g in s.gates
    ensures s.gates[g].waiting == 0 <==>
            forall id :: id in s.callers ==> !CountedAt(g)(s.callers[id])
  {
    ReachableInv(s);
    assert GateInv(s, g);
    if id :| id in s.callers && CountedAt(g)(s.callers[id]) {
      assert id in Who(s.callers, CountedAt(g));
    } else {
      assert Who(s.callers, CountedAt(g)) == {};
    }
  }

  /** A caller changes no gate but its own, and a fail-fast caller changes none. */
  lemma GatesAreSeparate(s: State, step: Step, g: nat)
    requires Reachable(s) && Enabled(s, step) && g in s.gates
    requires step.id in s.callers && s.callers[step.id].gate != Some(g)
    ensures Apply(s, step).gates[g] == s.gates[g]
  {
  }

  /** A fail-fast call never waits: at every point of every run it is trying, holding or gone. */
  lemma {:induction false} FailFastNeverWaits(s: State, steps: seq<Step>, id: nat)
    requires Execute(s, steps).Some? && id in s.callers && s.callers[id].gate.None? && CallerInv(s, s.callers[id])
    ensures var s' := Execute(s, steps).value;
            id in s'.callers && s'.callers[id].gate.None? && CallerInv(s', s'.callers[id])
    decreases |steps|
  {
    if steps != [] {
      FailFastNeverWaits(Apply(s, steps[0]), steps[1..], id);
    }
  }
}
