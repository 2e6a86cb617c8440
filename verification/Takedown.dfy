/**
 * The takedown protocol over every interleaving: PUT events, among them the moderator's tags, and
 * users' own DEL events are handled by any number of loops against one takedown store and one index.
 *
 * An event is queued, handled step by step, and finished; a step may fail, which queues the event
 * again. Its handling can also end early: the event is given up, because its error is not retried or
 * its retries have run out; or it is a moderator's tag that has itself been taken down, which its
 * first check skips without applying it.
 */
module Takedown {
  import opened Wrappers

  /** The address a removal works on: the event's own, or the one a moderator's tag names. */
  datatype Place = Own | Target

  /**
   * Where an event's handling stands. A removal is `clean` while nothing has been written to its
   * record since it began.
   */
  datatype Stage =
    | Queued
    | Checking
    | Fetching
    | Writing
    | Recording
    | Removing(place: Place, clean: bool)
    | Rechecking
    | Finished

  /** A PUT of a record, a PUT of a moderator's tag on `target`, or a DEL. */
  datatype Kind = Put | Moderate(target: string) | Delete

  /** `owes` since the event wrote to its record, or had its takedown stored and not yet carried out. */
  datatype Task = Task(kind: Kind, uri: string, stage: Stage, owes: bool)
  {
    /** The address this event's removal works on. */
    function Removes(): string
      requires stage.Removing?
    {
      if stage.place.Target? && kind.Moderate? then kind.target else uri
    }

    /** The taken-down record this event is relied on to remove. */
    function Debt(): Option<string> {
      if !owes then None
      else match kind
        case Delete => None
        case Put =>
          if stage.Queued? || stage.Checking? || stage.Writing? || stage.Rechecking? || stage == Removing(Own, true)
          then Some(uri) else None
        case Moderate(target) =>
          if stage.Queued? || stage.Checking? || stage.Recording? || stage == Removing(Target, true)
             || stage == (if target == uri then Removing(Own, true) else Fetching)
          then Some(target) else None
    }

    /** The event has to do with the record at this address. */
    predicate Concerns(address: string) {
      uri == address || kind == Moderate(address)
    }
  }

  /**
   * `taken` maps an address taken down to the tag that took it down; `live` holds the addresses
   * whose record is indexed, even in part; `lost` those whose removal was owed by an event that
   * ended early.
   */
  datatype State = State(
    taken: map<string, string>,
    live: set<string>,
    lost: set<string>,
    tasks: map<nat, Task>)

  const Initial := State(map[], {}, {}, map[])

  datatype Step =
    | Arrive(id: nat, kind: Kind, uri: string)
    | Start(id: nat)
    | Check(id: nat)
    | Fetched(id: nat)
    | Write(id: nat)
    | Written(id: nat)
    | Land(id: nat)
    | Record(id: nat)
    | Erase(id: nat)
    | Removed(id: nat, erased: bool, missing: bool)
    | Fail(id: nat)
    | GiveUp(id: nat)

  /** An early end, with the event as it stood: given up, or a tag found to be taken down itself. */
  datatype End = GivenUp(task: Task) | Fallen(task: Task)
  {
    /** The removal that is lost by it. */
    function Loses(): Option<string> {
      match this
      case GivenUp(t) => t.Debt()
      case Fallen(t) => if t.kind.Moderate? && t.stage.Checking? && t.uri != t.kind.target then t.Debt() else None
    }
  }

  predicate Active(s: State, id: nat) {
    id in s.tasks && !s.tasks[id].stage.Finished?
  }

  predicate Enabled(s: State, step: Step) {
    match step
    case Arrive(id, _, _) => id !in s.tasks
    case Start(id) => id in s.tasks && s.tasks[id].stage.Queued?
    case Check(id) => id in s.tasks && (s.tasks[id].stage.Checking? || s.tasks[id].stage.Rechecking?)
    case Fetched(id) => id in s.tasks && s.tasks[id].stage.Fetching?
    case Write(id) => id in s.tasks && s.tasks[id].stage.Writing?
    case Written(id) => id in s.tasks && s.tasks[id].stage.Writing?
    case Land(id) => id in s.tasks && s.tasks[id].stage.Recording? && s.tasks[id].kind.Moderate?
    case Record(id) => id in s.tasks && s.tasks[id].stage.Recording? && s.tasks[id].kind.Moderate?
    case Erase(id) => id in s.tasks && s.tasks[id].stage.Removing?
    case Removed(id, _, _) => id in s.tasks && s.tasks[id].stage.Removing?
    case Fail(id) => Active(s, id) && !s.tasks[id].stage.Queued?
    case GiveUp(id) => Active(s, id)
  }

  /** The early end a step makes, if it does. A tag on its own address removes its target even so. */
  function Ending(s: State, step: Step): Option<End>
    requires Enabled(s, step)
  {
    match step
    case GiveUp(id) => Some(GivenUp(s.tasks[id]))
    case Check(id) =>
      var t := s.tasks[id];
      if t.stage.Checking? && t.kind.Moderate? && t.kind.target != t.uri && t.uri in s.taken then Some(Fallen(t)) else None
    case _ => None
  }

  function At(s: State, id: nat, t: Task): State {
    s.(tasks := s.tasks[id := t])
  }

  function FirstStage(kind: Kind): Stage {
    if kind.Delete? then Removing(Own, true) else Checking
  }

  /** What a check goes on to, the first or the second. */
  function AfterCheck(s: State, t: Task): Stage {
    if t.uri in s.taken then Removing(Own, true) else if t.stage.Checking? then Fetching else Finished
  }

  /** The takedown is stored; the first tag on an address is kept. */
  function Landed(s: State, id: nat): State
    requires id in s.tasks && s.tasks[id].kind.Moderate?
  {
    var t := s.tasks[id];
    At(if t.kind.target in s.taken then s else s.(taken := s.taken[t.kind.target := t.uri]), id, t.(owes := true))
  }

  /** Part of a write lands: the record is live, and removals under way are no longer clean. */
  function Wrote(s: State, id: nat): State
    requires id in s.tasks
  {
    var uri := s.tasks[id].uri;
    var tasks := map i | i in s.tasks ::
      if s.tasks[i].stage.Removing? && s.tasks[i].Removes() == uri
      then s.tasks[i].(stage := Removing(s.tasks[i].stage.place, false))
      else s.tasks[i];
    s.(live := s.live + {uri}, tasks := tasks[id := s.tasks[id].(owes := true)])
  }

  /**
   * A removal is reported done, or its record missing. A moderator's event then has carried out its
   * takedown, and goes on to check its own address unless the error ends it.
   */
  function AfterRemoval(t: Task, missing: bool): Task
    requires t.stage.Removing?
  {
    if t.stage.place.Own? then t.(stage := Finished)
    else t.(stage := if missing then Finished else Rechecking, owes := false)
  }

  function Apply(s: State, step: Step): State
    requires Enabled(s, step)
  {
    match step
    case Arrive(id, kind, uri) => At(s, id, Task(kind, uri, Queued, false))
    case Start(id) => At(s, id, s.tasks[id].(stage := FirstStage(s.tasks[id].kind)))
    case Check(id) => At(Lose(s, Ending(s, step)), id, s.tasks[id].(stage := AfterCheck(s, s.tasks[id])))
    case Fetched(id) => At(s, id, s.tasks[id].(stage := if s.tasks[id].kind.Moderate? then Recording else Writing))
    case Write(id) => Wrote(s, id)
    case Written(id) => At(s, id, s.tasks[id].(stage := Rechecking))
    case Land(id) => Landed(s, id)
    case Record(id) => At(Landed(s, id), id, s.tasks[id].(stage := Removing(Target, true), owes := true))
    case Erase(id) => s.(live := s.live - {s.tasks[id].Removes()})
    case Removed(id, erased, missing) =>
      var t := s.tasks[id];
      At(if t.stage.clean || erased then s.(live := s.live - {t.Removes()}) else s, id, AfterRemoval(t, missing))
    case Fail(id) => At(s, id, s.tasks[id].(stage := Queued))
    case GiveUp(id) => At(Lose(s, Ending(s, step)), id, s.tasks[id].(stage := Finished))
  }

  function Lose(s: State, end: Option<End>): State {
    if end.Some? && end.value.Loses().Some? then s.(lost := s.lost + {end.value.Loses().value}) else s
  }

  /** Which early ends a deployment lets happen. */
  type Policy = End -> bool

  predicate Permitted(policy: Policy, s: State, step: Step) {
    Enabled(s, step) && (Ending(s, step).Some? ==> policy(Ending(s, step).value))
  }

  function Execute(policy: Policy, s: State, steps: seq<Step>): Option<State>
    decreases |steps|
  {
    if steps == [] then Some(s)
    else if Permitted(policy, s, steps[0]) then Execute(policy, Apply(s, steps[0]), steps[1..])
    else None
  }

  ghost predicate Reachable(policy: Policy, s: State) {
    exists steps :: Execute(policy, Initial, steps) == Some(s)
  }

  /** No event for this record is in flight or awaiting retry. */
  ghost predicate Quiet(s: State, uri: string) {
    forall id :: Active(s, id) ==> !s.tasks[id].Concerns(uri)
  }

  // ---------------------------------------------------------------------------------------
  // The inductive invariant

  /** An event is under way that will remove the record. */
  ghost predicate Covered(s: State, uri: string) {
    exists id :: id in s.tasks && s.tasks[id].Debt() == Some(uri)
  }

  /** Each kind of event passes only through its own stages, and a tag owes only what it recorded. */
  predicate Proper(s: State, t: Task) {
    match t.kind
    case Put => !t.stage.Recording? && (t.stage.Removing? ==> t.stage.place.Own?)
    case Moderate(target) =>
      && !t.stage.Writing?
      && (t.owes || (t.stage.Removing? && t.stage.place.Target?) ==> target in s.taken)
      && (t.stage.Removing? && t.stage.place.Target? ==> t.owes)
    case Delete => !t.owes && (t.stage.Queued? || t.stage.Finished? || (t.stage.Removing? && t.stage.place.Own?))
  }

  ghost predicate Inv(s: State) {
    && (forall id :: id in s.tasks ==> Proper(s, s.tasks[id]))
    && forall uri :: uri in s.taken && uri in s.live ==> uri in s.lost || Covered(s, uri)
  }

  lemma {:induction false} StepKeepsProper(s: State, step: Step, id: nat)
    requires Inv(s) && Enabled(s, step) && id in Apply(s, step).tasks
    ensures Proper(Apply(s, step), Apply(s, step).tasks[id])
  {
    if id in s.tasks {
      assert Proper(s, s.tasks[id]);
    }
  }

  lemma {:induction false} StepKeepsInv(s: State, step: Step)
    requires Inv(s) && Enabled(s, step)
    ensures Inv(Apply(s, step))
  {
    var s' := Apply(s, step);
    forall id | id in s'.tasks ensures Proper(s', s'.tasks[id]) {
      StepKeepsProper(s, step, id);
    }
    forall uri | uri in s'.taken && uri in s'.live ensures uri in s'.lost || Covered(s', uri) {
      if uri !in s'.lost {
        StepKeepsCover(s, step, uri);
      }
    }
  }

  /** Whoever is relied on keeps its debt, or hands it on to the event that makes it fall due. */
  lemma {:induction false} StepKeepsCover(s: State, step: Step, uri: string)
    requires Inv(s) && Enabled(s, step)
    requires uri in Apply(s, step).taken && uri in Apply(s, step).live && uri !in Apply(s, step).lost
    ensures Covered(Apply(s, step), uri)
  {
    var s' := Apply(s, step);
    if step.id in s'.tasks && s'.tasks[step.id].Debt() == Some(uri) {
    } else {
      assert uri in s.taken && uri in s.live;
      var id :| id in s.tasks && s.tasks[id].Debt() == Some(uri);
      assert Proper(s, s.tasks[id]);
      assert id != step.id;
      assert s'.tasks[id].Debt() == Some(uri);
    }
  }

  /** No permitted end loses a removal. */
  ghost predicate LosesNothing(policy: Policy) {
    forall end :: policy(end) ==> end.Loses().None?
  }

  lemma {:induction false} ExecuteKeepsInv(policy: Policy, s: State, steps: seq<Step>)
    requires Inv(s)
    ensures Execute(policy, s, steps).Some? ==>
              var s' := Execute(policy, s, steps).value;
              Inv(s') && (LosesNothing(policy) ==> s'.lost == s.lost)
    decreases |steps|
  {
    if steps != [] && Permitted(policy, s, steps[0]) {
      StepKeepsInv(s, steps[0]);
      LostBy(s, steps[0]);
      ExecuteKeepsInv(policy, Apply(s, steps[0]), steps[1..]);
    }
  }

  lemma LostBy(s: State, step: Step)
    requires Enabled(s, step)
    ensures Apply(s, step).lost == s.lost
         || (Ending(s, step).Some? && Ending(s, step).value.Loses().Some?
             && Apply(s, step).lost == s.lost + {Ending(s, step).value.Loses().value})
  {
  }

  // ---------------------------------------------------------------------------------------
  // What every run keeps

  /**
   * At any instant, a record that is taken down and still indexed has an event under way that will
   * remove it, unless an event that owed its removal ended early.
   */
  lemma {:induction false} TakenButLiveIsCovered(policy: Policy, s: State, uri: string)
    requires Reachable(policy, s) && uri in s.taken && uri in s.live
    ensures uri in s.lost || Covered(s, uri)
  {
    var steps :| Execute(policy, Initial, steps) == Some(s);
    ExecuteKeepsInv(policy, Initial, steps);
  }

  /** Once its events have settled, a taken-down record is not live, unless its removal was lost. */
  lemma {:induction false} TakenDownStaysDown(policy: Policy, s: State, uri: string)
    requires Reachable(policy, s) && Quiet(s, uri) && uri in s.taken && uri !in s.lost
    ensures uri !in s.live
  {
    if uri in s.live {
      TakenButLiveIsCovered(policy, s, uri);
      var id :| id in s.tasks && s.tasks[id].Debt() == Some(uri);
      assert Active(s, id) && s.tasks[id].Concerns(uri);
    }
  }

  /** A tag's takedown is stored before the removal of its target begins. */
  lemma {:induction false} RecordedBeforeRemoval(policy: Policy, s: State, id: nat)
    requires Reachable(policy, s) && id in s.tasks && s.tasks[id].kind.Moderate?
    requires s.tasks[id].stage.Removing? && s.tasks[id].stage.place.Target?
    ensures s.tasks[id].kind.target in s.taken
  {
    var steps :| Execute(policy, Initial, steps) == Some(s);
    ExecuteKeepsInv(policy, Initial, steps);
    assert Proper(s, s.tasks[id]);
  }

  /** A takedown is permanent, and keeps the tag that made it. */
  lemma {:induction false} TakedownsArePermanent(policy: Policy, s: State, steps: seq<Step>, uri: string)
    requires Execute(policy, s, steps).Some? && uri in s.taken
    ensures uri in Execute(policy, s, steps).value.taken
    ensures Execute(policy, s, steps).value.taken[uri] == s.taken[uri]
    decreases |steps|
  {
    if steps != [] {
      TakedownsArePermanent(policy, Apply(s, steps[0]), steps[1..], uri);
    }
  }

  /** No tag with a takedown to carry out is itself taken down by another. */
  ghost predicate TagsStand(s: State) {
    forall id :: id in s.tasks && s.tasks[id].kind.Moderate? && s.tasks[id].owes && s.tasks[id].uri in s.taken ==>
      s.tasks[id].uri == s.tasks[id].kind.target
  }

  /** While the tags stand, no tag's fall loses anything. */
  lemma GuardSparesTags(s: State, step: Step)
    requires Enabled(s, step) && TagsStand(s)
    ensures Ending(s, step).Some? && Ending(s, step).value.Fallen? ==> Ending(s, step).value.Loses().None?
  {
  }

  /** They stand at every state of a run. */
  ghost predicate TagsStandThroughout(policy: Policy, s: State, steps: seq<Step>)
    decreases |steps|
  {
    TagsStand(s)
    && (steps != [] && Permitted(policy, s, steps[0]) ==> TagsStandThroughout(policy, Apply(s, steps[0]), steps[1..]))
  }

  lemma {:induction false} StandingTagsLoseNothing(policy: Policy, s: State, steps: seq<Step>)
    requires TagsStandThroughout(policy, s, steps) && forall t :: policy(GivenUp(t)) ==> t.Debt().None?
    ensures Execute(policy, s, steps).Some? ==> Execute(policy, s, steps).value.lost == s.lost
    decreases |steps|
  {
    if steps != [] && Permitted(policy, s, steps[0]) {
      GuardSparesTags(s, steps[0]);
      LostBy(s, steps[0]);
      StandingTagsLoseNothing(policy, Apply(s, steps[0]), steps[1..]);
    }
  }

  /**
   * In a run in which no tag with a takedown to carry out is taken down and no event is given up
   * while it owes a removal, settled takedowns hold.
   */
  lemma StandingTagsStayDown(policy: Policy, steps: seq<Step>, uri: string)
    requires TagsStandThroughout(policy, Initial, steps) && forall t :: policy(GivenUp(t)) ==> t.Debt().None?
    requires Execute(policy, Initial, steps).Some?
    ensures var s := Execute(policy, Initial, steps).value;
            Quiet(s, uri) && uri in s.taken ==> uri !in s.live
  {
    var s := Execute(policy, Initial, steps).value;
    StandingTagsLoseNothing(policy, Initial, steps);
    if Quiet(s, uri) && uri in s.taken {
      TakenDownStaysDown(policy, s, uri);
    }
  }

  ghost predicate StaysDown(policy: Policy) {
    forall s, uri :: Reachable(policy, s) && Quiet(s, uri) && uri in s.taken ==> uri !in s.live
  }

  /**
   * Settled takedowns hold in every run exactly when no early end that is let happen loses a
   * removal: no event is given up while it owes one, and no tag that owes one falls.
   */
  lemma {:induction false} StaysDownIff(policy: Policy)
    ensures StaysDown(policy) <==> LosesNothing(policy)
  {
    if LosesNothing(policy) {
      forall s, uri | Reachable(policy, s) && Quiet(s, uri) && uri in s.taken ensures uri !in s.live {
        var steps :| Execute(policy, Initial, steps) == Some(s);
        ExecuteKeepsInv(policy, Initial, steps);
        TakenDownStaysDown(policy, s, uri);
      }
    } else {
      var end :| policy(end) && end.Loses().Some?;
      LostStaysLive(policy, end);
    }
  }

  /** Every early end that loses a removal has a run that leaves the record live. */
  lemma {:induction false} LostStaysLive(policy: Policy, end: End)
    requires policy(end) && end.Loses().Some?
    ensures !StaysDown(policy)
  {
    match end
    case GivenUp(t) =>
      if t.kind.Put? {
        GivenUpPutStaysLive(policy, t.uri, t.stage);
      } else {
        GivenUpTagStaysLive(policy, t.kind.target, t.uri, t.stage);
      }
    case Fallen(t) => FallenTagStaysLive(policy, t.kind.target, t.uri);
  }

  // ---------------------------------------------------------------------------------------
  // Runs that leave a taken-down record live

  lemma {:induction false} ExecuteThen(policy: Policy, s: State, first: seq<Step>, rest: seq<Step>)
    requires Execute(policy, s, first).Some?
    ensures Execute(policy, s, first + rest) == Execute(policy, Execute(policy, s, first).value, rest)
    decreases |first|
  {
    if first == [] {
      assert first + rest == rest;
    } else {
      assert (first + rest)[0] == first[0] && (first + rest)[1..] == first[1..] + rest;
      ExecuteThen(policy, Apply(s, first[0]), first[1..], rest);
    }
  }

  lemma {:induction false} ReachableStep(policy: Policy, s: State, step: Step)
    requires Reachable(policy, s) && Permitted(policy, s, step)
    ensures Reachable(policy, Apply(s, step))
  {
    var steps :| Execute(policy, Initial, steps) == Some(s);
    ExecuteThen(policy, Initial, steps, [step]);
    var last := [step];
    assert last[1..] == [];
    assert Execute(policy, s, last) == Execute(policy, Apply(s, step), []);
  }

  /** A step that changes nothing but the event it is about. */
  lemma {:induction false} Move(policy: Policy, s: State, id: nat, t: Task, step: Step, t': Task)
    requires Reachable(policy, At(s, id, t)) && Permitted(policy, At(s, id, t), step)
    requires Apply(At(s, id, t), step) == At(At(s, id, t), id, t')
    ensures Reachable(policy, At(s, id, t'))
  {
    hide Reachable;
    ReachableStep(policy, At(s, id, t), step);
    assert At(At(s, id, t), id, t') == At(s, id, t');
  }

  function PutAt(uri: string, stage: Stage, owes: bool): Task {
    Task(Put, uri, stage, owes)
  }

  function TagAt(target: string, own: string, stage: Stage, owes: bool): Task {
    Task(Moderate(target), own, stage, owes)
  }

  /** A PUT of a record that is not taken down gets past its first check. */
  lemma {:induction false} PutGetsToWrite(policy: Policy, s: State, id: nat, uri: string)
    requires Reachable(policy, s) && id !in s.tasks && uri !in s.taken
    ensures Reachable(policy, At(s, id, PutAt(uri, Writing, false)))
  {
    hide Reachable;
    ReachableStep(policy, s, Arrive(id, Put, uri));
    Move(policy, s, id, PutAt(uri, Queued, false), Start(id), PutAt(uri, Checking, false));
    Move(policy, s, id, PutAt(uri, Checking, false), Check(id), PutAt(uri, Fetching, false));
    Move(policy, s, id, PutAt(uri, Fetching, false), Fetched(id), PutAt(uri, Writing, false));
  }

  lemma {:induction false} PutWrites(policy: Policy, s: State, id: nat, uri: string)
    requires Reachable(policy, At(s, id, PutAt(uri, Writing, false)))
    requires forall i :: i in s.tasks ==> !s.tasks[i].stage.Removing?
    ensures Reachable(policy, At(s.(live := s.live + {uri}), id, PutAt(uri, Writing, true)))
  {
    hide Reachable;
    var before := At(s, id, PutAt(uri, Writing, false));
    ReachableStep(policy, before, Write(id));
    assert Apply(before, Write(id)).tasks == s.tasks[id := PutAt(uri, Writing, true)];
  }

  /** A tag that is not taken down gets past its first check. */
  lemma {:induction false} TagGetsToRecord(policy: Policy, s: State, id: nat, target: string, own: string)
    requires Reachable(policy, s) && id !in s.tasks && own !in s.taken
    ensures Reachable(policy, At(s, id, TagAt(target, own, Recording, false)))
  {
    hide Reachable;
    ReachableStep(policy, s, Arrive(id, Moderate(target), own));
    Move(policy, s, id, TagAt(target, own, Queued, false), Start(id), TagAt(target, own, Checking, false));
    Move(policy, s, id, TagAt(target, own, Checking, false), Check(id), TagAt(target, own, Fetching, false));
    Move(policy, s, id, TagAt(target, own, Fetching, false), Fetched(id), TagAt(target, own, Recording, false));
  }

  /** Storing a first takedown, of which the tag may not hear. */
  function TakenBy(s: State, target: string, own: string): State {
    s.(taken := s.taken[target := own])
  }

  lemma {:induction false} TagIsStored(policy: Policy, s: State, id: nat, target: string, own: string)
    requires Reachable(policy, At(s, id, TagAt(target, own, Recording, false))) && target !in s.taken
    ensures Reachable(policy, At(TakenBy(s, target, own), id, TagAt(target, own, Recording, true)))
    ensures Reachable(policy, At(TakenBy(s, target, own), id, TagAt(target, own, Removing(Target, true), true)))
  {
    hide Reachable;
    var before, stored := At(s, id, TagAt(target, own, Recording, false)), TakenBy(s, target, own);
    ReachableStep(policy, before, Land(id));
    assert Apply(before, Land(id)).tasks == stored.tasks[id := TagAt(target, own, Recording, true)];
    Move(policy, stored, id, TagAt(target, own, Recording, true), Record(id), TagAt(target, own, Removing(Target, true), true));
  }

  /** A tag handled from end to end without a failure. */
  lemma {:induction false} TagIsApplied(policy: Policy, s: State, id: nat, target: string, own: string)
    requires Reachable(policy, s) && id !in s.tasks && target !in s.taken && own !in s.taken && target != own
    ensures var s' := TakenBy(s, target, own).(live := s.live - {target});
            Reachable(policy, At(s', id, TagAt(target, own, Finished, false)))
  {
    hide Reachable;
    TagGetsToRecord(policy, s, id, target, own);
    TagIsStored(policy, s, id, target, own);
    var stored := TakenBy(s, target, own);
    var s', before := stored.(live := s.live - {target}), At(stored, id, TagAt(target, own, Removing(Target, true), true));
    ReachableStep(policy, before, Removed(id, false, false));
    assert Apply(before, Removed(id, false, false)).tasks == s'.tasks[id := TagAt(target, own, Rechecking, false)];
    Move(policy, s', id, TagAt(target, own, Rechecking, false), Check(id), TagAt(target, own, Finished, false));
  }

  /** The address of a tag on a record: some other one. */
  function TagOn(uri: string): string {
    uri + "t"
  }

  /** After a tag (1) on a record was handled while a PUT (0) of it stood between its check and its write. */
  function Handled(uri: string): State {
    State(map[uri := TagOn(uri)], {}, {}, map[0 := PutAt(uri, Writing, false), 1 := TagAt(uri, TagOn(uri), Finished, false)])
  }

  lemma {:induction false} HandledIsReachable(policy: Policy, uri: string)
    ensures Reachable(policy, Handled(uri))
  {
    assert Execute(policy, Initial, []) == Some(Initial);
    hide Reachable;
    assert |TagOn(uri)| > |uri|;
    PutGetsToWrite(policy, Initial, 0, uri);
    var s := At(Initial, 0, PutAt(uri, Writing, false));
    TagIsApplied(policy, s, 1, uri, TagOn(uri));
    assert At(TakenBy(s, uri, TagOn(uri)).(live := s.live - {uri}), 1, TagAt(uri, TagOn(uri), Finished, false)) == Handled(uri);
  }

  /** The PUT writes only then. */
  lemma {:induction false} PutWritesLate(policy: Policy, uri: string)
    ensures Reachable(policy, At(Handled(uri).(live := {uri}), 0, PutAt(uri, Writing, true)))
  {
    HandledIsReachable(policy, uri);
    hide Reachable;
    var s := Handled(uri);
    assert At(s, 0, PutAt(uri, Writing, false)) == s && s.live + {uri} == {uri};
    PutWrites(policy, s, 0, uri);
  }

  lemma {:induction false} PutGoesOn(policy: Policy, s: State, uri: string)
    requires Reachable(policy, At(s, 0, PutAt(uri, Writing, true))) && uri in s.taken
    ensures Reachable(policy, At(s, 0, PutAt(uri, Rechecking, true)))
    ensures Reachable(policy, At(s, 0, PutAt(uri, Removing(Own, true), true)))
  {
    hide Reachable, Execute;
    Move(policy, s, 0, PutAt(uri, Writing, true), Written(0), PutAt(uri, Rechecking, true));
    Move(policy, s, 0, PutAt(uri, Rechecking, true), Check(0), PutAt(uri, Removing(Own, true), true));
  }

  lemma {:induction false} Retries(policy: Policy, s: State, id: nat, t: Task)
    requires Reachable(policy, At(s, id, t)) && !t.kind.Delete? && t.stage.Removing?
    ensures Reachable(policy, At(s, id, t.(stage := Queued)))
    ensures Reachable(policy, At(s, id, t.(stage := Checking)))
  {
    hide Reachable, Execute;
    Move(policy, s, id, t, Fail(id), t.(stage := Queued));
    Move(policy, s, id, t.(stage := Queued), Start(id), t.(stage := Checking));
  }

  /** From there on it owes the removal at every stage. */
  lemma {:induction false} PutOwes(policy: Policy, uri: string, stage: Stage)
    requires PutAt(uri, stage, true).Debt().Some?
    ensures Reachable(policy, At(Handled(uri).(live := {uri}), 0, PutAt(uri, stage, true)))
  {
    PutWritesLate(policy, uri);
    hide Reachable, Execute, At;
    var s := Handled(uri).(live := {uri});
    PutGoesOn(policy, s, uri);
    Retries(policy, s, 0, PutAt(uri, Removing(Own, true), true));
  }

  /** A PUT given up with something written leaves the record live. */
  lemma {:induction false} GivenUpPutStaysLive(policy: Policy, uri: string, stage: Stage)
    requires PutAt(uri, stage, true).Debt().Some? && policy(GivenUp(PutAt(uri, stage, true)))
    ensures !StaysDown(policy)
  {
    PutOwes(policy, uri, stage);
    var s := At(Handled(uri).(live := {uri}), 0, PutAt(uri, stage, true));
    ReachableStep(policy, s, GiveUp(0));
    var s' := Apply(s, GiveUp(0));
    assert Quiet(s', uri) && uri in s'.taken && uri in s'.live;
  }

  /** An indexed record: its PUT (0) is finished. */
  function Indexed(uri: string): State {
    State(map[], {uri}, {}, map[0 := PutAt(uri, Finished, true)])
  }

  lemma {:induction false} IndexedIsReachable(policy: Policy, uri: string)
    ensures Reachable(policy, Indexed(uri))
  {
    assert Execute(policy, Initial, []) == Some(Initial);
    hide Reachable;
    PutGetsToWrite(policy, Initial, 0, uri);
    PutWrites(policy, Initial, 0, uri);
    var l := Initial.(live := {uri});
    assert Initial.live + {uri} == {uri};
    Move(policy, l, 0, PutAt(uri, Writing, true), Written(0), PutAt(uri, Rechecking, true));
    Move(policy, l, 0, PutAt(uri, Rechecking, true), Check(0), PutAt(uri, Finished, true));
    assert At(l, 0, PutAt(uri, Finished, true)) == Indexed(uri);
  }

  /** A tag (1) on it has its takedown stored, and goes on to the removal. */
  lemma {:induction false} TagIsStoredFirst(policy: Policy, uri: string, own: string)
    ensures var s := TakenBy(Indexed(uri), uri, own);
            && Reachable(policy, At(s, 1, TagAt(uri, own, Recording, true)))
            && Reachable(policy, At(s, 1, TagAt(uri, own, Removing(Target, true), true)))
  {
    IndexedIsReachable(policy, uri);
    hide Reachable, Execute;
    TagGetsToRecord(policy, Indexed(uri), 1, uri, own);
    TagIsStored(policy, Indexed(uri), 1, uri, own);
  }

  /** Its removal fails and is retried, and is owed at every stage up to the next attempt. */
  lemma {:induction false} TagOwes(policy: Policy, uri: string, own: string, stage: Stage)
    requires TagAt(uri, own, stage, true).Debt().Some?
    ensures Reachable(policy, At(TakenBy(Indexed(uri), uri, own), 1, TagAt(uri, own, stage, true)))
  {
    TagIsStoredFirst(policy, uri, own);
    hide Reachable, Execute;
    var s, t := TakenBy(Indexed(uri), uri, own), TagAt(uri, own, Removing(Target, true), true);
    Retries(policy, s, 1, t);
    var next := if own == uri then Removing(Own, true) else Fetching;
    Move(policy, s, 1, t.(stage := Checking), Check(1), t.(stage := next));
  }

  /** A tag given up with its takedown stored leaves its target live. */
  lemma {:induction false} GivenUpTagStaysLive(policy: Policy, uri: string, own: string, stage: Stage)
    requires TagAt(uri, own, stage, true).Debt().Some? && policy(GivenUp(TagAt(uri, own, stage, true)))
    ensures !StaysDown(policy)
  {
    TagOwes(policy, uri, own, stage);
    var s := At(TakenBy(Indexed(uri), uri, own), 1, TagAt(uri, own, stage, true));
    ReachableStep(policy, s, GiveUp(1));
    var s' := Apply(s, GiveUp(1));
    assert Quiet(s', uri) && uri in s'.taken && uri in s'.live;
  }

  /** While that tag waits to retry, a second tag (2) takes it down. */
  function TakenDownTag(uri: string, own: string, second: string): State {
    State(map[uri := own, own := second], {uri}, {},
          map[0 := PutAt(uri, Finished, true), 1 := TagAt(uri, own, Queued, true), 2 := TagAt(own, second, Finished, false)])
  }

  lemma {:induction false} TagIsTakenDown(policy: Policy, uri: string, own: string, second: string)
    requires uri != own && second != uri && second != own
    ensures Reachable(policy, TakenDownTag(uri, own, second))
  {
    TagOwes(policy, uri, own, Queued);
    hide Reachable;
    var s := At(TakenBy(Indexed(uri), uri, own), 1, TagAt(uri, own, Queued, true));
    TagIsApplied(policy, s, 2, own, second);
    assert s.live - {own} == {uri};
    assert At(TakenBy(s, own, second).(live := s.live - {own}), 2, TagAt(own, second, Finished, false))
        == TakenDownTag(uri, own, second);
  }

  /**
   * A tag whose removal failed is taken down by a second tag: its retry stops at its own first
   * check, and with nothing given up its target stays taken down and live.
   */
  lemma {:induction false} FallenTagStaysLive(policy: Policy, uri: string, own: string)
    requires uri != own && policy(Fallen(TagAt(uri, own, Checking, true)))
    ensures !StaysDown(policy)
  {
    var second := own + uri + "t";
    assert |second| > |uri| && |second| > |own|;
    TagIsTakenDown(policy, uri, own, second);
    var s := TakenDownTag(uri, own, second);
    assert At(s, 1, TagAt(uri, own, Queued, true)) == s;
    Move(policy, s, 1, TagAt(uri, own, Queued, true), Start(1), TagAt(uri, own, Checking, true));
    FallenTagEnds(policy, s, uri, own);
  }

  lemma {:induction false} FallenTagEnds(policy: Policy, s: State, uri: string, own: string)
    requires Reachable(policy, At(s, 1, TagAt(uri, own, Checking, true)))
    requires uri != own && own in s.taken && uri in s.taken && uri in s.live
    requires forall id :: id in s.tasks && id != 1 ==> s.tasks[id].stage.Finished?
    requires policy(Fallen(TagAt(uri, own, Checking, true)))
    ensures !StaysDown(policy)
  {
    var s1 := At(s, 1, TagAt(uri, own, Checking, true));
    ReachableStep(policy, s1, Check(1));
    var s2 := Apply(s1, Check(1));
    ReachableStep(policy, s2, Removed(1, false, false));
    var s3 := Apply(s2, Removed(1, false, false));
    assert Quiet(s3, uri) && uri in s3.taken && uri in s3.live;
  }
}
