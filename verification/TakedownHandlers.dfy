/**
 * The handler of PUT events, the moderator's tags among them, as it runs, each await leaving room
 * for every other loop. What it does to the stores is a run of the takedown protocol.
 */
module TakedownHandlers {
  import opened Wrappers
  import opened Takedown

  /**
   * What the handler meets at its awaits: the steps other loops take meanwhile, which of its own
   * calls fail, whether a failed takedown write was stored all the same, how many parts its write
   * has and which of them fail, what a removal that overlapped a write still erased, and whether the
   * removal for a tag reports that nothing is indexed.
   *
   * The calls are numbered: 0 and 1 for the first check and its removal, 2 for the fetch, 3 and 4
   * for a tag's takedown and its removal, 5 and 6 for the second check, and from 7 on the parts.
   */
  datatype Weather = Weather(
    others: nat -> seq<Step>, fails: nat -> bool, stored: bool,
    parts: nat, partFails: nat -> bool, erased: bool, missing: bool)

  datatype Check = Down | NotTaken | Failed

  /** Done with, dropped by an error that is not retried, or queued again. */
  datatype Outcome = Done | Missing | Again

  /** Some part of the write fails. */
  ghost predicate WriteFails(w: Weather) {
    exists part: nat :: part < w.parts && w.partFails(part)
  }

  /** How the fetch and what is done with the record leave an event that was not found taken down. */
  ghost function Acted(w: Weather, kind: Kind): Outcome {
    if w.fails(2) then Again
    else if kind.Moderate? then if w.fails(3) || w.fails(4) then Again else if w.missing then Missing else Done
    else if WriteFails(w) then Again
    else Done
  }

  /** What a check of an address that is or is not taken down comes to, with calls `at` and `at + 1`. */
  function Checked(w: Weather, at: nat, taken: bool): Check {
    if w.fails(at) then Failed else if !taken then NotTaken else if w.fails(at + 1) then Failed else Down
  }

  /**
   * How an event of each kind ends: `down` when its first check found it taken down, and `taken`
   * when it is taken down by its second.
   */
  ghost function Expected(w: Weather, kind: Kind, down: bool, taken: bool): Outcome {
    if Checked(w, 0, down).Failed? then Again
    else if down then Done
    else if !Acted(w, kind).Done? then Acted(w, kind)
    else if Checked(w, 5, taken).Failed? then Again
    else Done
  }

  /** No other loop takes a step meanwhile. */
  ghost predicate Alone(w: Weather) {
    forall i :: w.others(i) == []
  }

  /** The index after a record was written, or a tag's target removed. */
  function Lives(w: Weather, kind: Kind, uri: string, live: set<string>): set<string> {
    if kind.Moderate? then live - {kind.target} else if w.parts > 0 then live + {uri} else live
  }

  /** The takedown store with one more takedown, of which the first is kept. */
  function Recorded(taken: map<string, string>, target: string, tag: string): map<string, string> {
    if target in taken then taken else taken[target := tag]
  }

  class Watcher {
    const policy: Policy
    /** The takedown store, the index, and the queue of events. */
    var s: State

    constructor (policy: Policy)
      requires forall t :: policy(Fallen(t))
      ensures this.policy == policy && s == Initial
      ensures Running()
    {
      this.policy, s := policy, Initial;
      new;
      assert Execute(policy, Initial, []) == Some(Initial);
    }

    /** A taken-down tag is skipped, whatever else is let happen. */
    ghost predicate Running()
      reads this
    {
      Reachable(policy, s) && forall t :: policy(Fallen(t))
    }

    ghost predicate Handling(id: nat, kind: Kind, uri: string, stage: Stage)
      reads this
    {
      Running() && id in s.tasks && s.tasks[id].kind == kind && s.tasks[id].uri == uri && s.tasks[id].stage == stage
    }

    method Do(step: Step)
      requires Running() && Permitted(policy, s, step)
      modifies this
      ensures Running() && s == Apply(old(s), step)
    {
      ReachableStep(policy, s, step);
      s := Apply(s, step);
    }

    /** The other loops move on; they can only spoil a removal this event has under way. */
    method Others(id: nat, steps: seq<Step>)
      requires Running() && id in s.tasks
      modifies this
      ensures Running() && id in s.tasks && old(s.taken.Keys) <= s.taken.Keys
      ensures Beside(old(s.tasks[id]), s.tasks[id])
      ensures steps == [] ==> s == old(s)
    {
      hide Reachable;
      ghost var mine := s.tasks[id];
      for i := 0 to |steps|
        invariant Running() && id in s.tasks && old(s.taken.Keys) <= s.taken.Keys
        invariant Beside(mine, s.tasks[id]) && (i == 0 ==> s == old(s))
      {
        if steps[i].id != id && Enabled(s, steps[i]) {
          MaybeDo(id, steps[i]);
        }
      }
    }

    /** A step of another event is taken unless it is an early end that is not let happen. */
    method MaybeDo(ghost id: nat, step: Step)
      requires Running() && id in s.tasks && step.id != id && Enabled(s, step)
      modifies this
      ensures Running() && id in s.tasks && old(s.taken.Keys) <= s.taken.Keys
      ensures Beside(old(s.tasks[id]), s.tasks[id])
    {
      hide Reachable;
      if Permitted(policy, s, step) {
        Do(step);
      }
    }

    /** The task as other events' steps may leave it. */
    ghost predicate Beside(before: Task, after: Task) {
      && after.kind == before.kind && after.uri == before.uri && after.owes == before.owes
      && (after.stage == before.stage
          || (before.stage.Removing? && after.stage == Removing(before.stage.place, false)))
    }

    /** Removes the record it has begun to; an error queues the event again. A tag's takedown is stored by then. */
    method Remove(id: nat, ghost kind: Kind, ghost uri: string, place: Place, w: Weather, at: nat) returns (ok: bool)
      requires Handling(id, kind, uri, Removing(place, true))
      requires place.Target? ==> kind.Moderate? && kind.target in s.taken
      modifies this
      ensures Handling(id, kind, uri,
                       if !ok then Queued else if place.Own? || w.missing then Finished else Rechecking)
      ensures ok <==> !w.fails(at)
      ensures old(s.taken.Keys) <= s.taken.Keys
      ensures place.Own? ==> s.tasks[id].owes == old(s.tasks[id].owes)
      ensures Alone(w) ==> s.taken == old(s.taken)
      ensures Alone(w) ==> s.live == if ok then old(s.live - {s.tasks[id].Removes()}) else old(s.live)
    {
      hide Reachable;
      Others(id, w.others(at));
      if w.fails(at) {
        Do(Fail(id));
        return false;
      }
      Do(Removed(id, w.erased, w.missing));
      return true;
    }

    /** Removes the record of an event if its address is taken down, and says whether it did. */
    method RemoveIfTakenDown(id: nat, ghost kind: Kind, ghost uri: string, w: Weather, at: nat) returns (check: Check)
      requires Handling(id, kind, uri, Checking) || Handling(id, kind, uri, Rechecking)
      modifies this
      ensures Handling(id, kind, uri,
                       if check.Failed? then Queued
                       else if check.NotTaken? && old(s.tasks[id].stage).Checking? then Fetching
                       else Finished)
      ensures check == Checked(w, at, uri in s.taken)
      ensures old(s.taken.Keys) <= s.taken.Keys
      ensures s.tasks[id].owes == old(s.tasks[id].owes)
      ensures Alone(w) ==> s.taken == old(s.taken) && s.live == if check.Down? then old(s.live) - {uri} else old(s.live)
    {
      hide Reachable;
      Others(id, w.others(at));
      if w.fails(at) {
        Do(Fail(id));
        return Failed;
      }
      Do(Check(id));
      if s.tasks[id].stage.Removing? {
        var ok := Remove(id, kind, uri, Own, w, at + 1);
        return if ok then Down else Failed;
      }
      return NotTaken;
    }

    /** The parts of a write land one by one, up to the first that fails: the record is indexed, and the event owes its removal. */
    method WriteRecord(id: nat, ghost uri: string, w: Weather) returns (ok: bool)
      requires Handling(id, Put, uri, Writing)
      modifies this
      ensures Handling(id, Put, uri, if ok then Rechecking else Queued)
      ensures ok <==> !WriteFails(w)
      ensures old(s.taken.Keys) <= s.taken.Keys
      ensures old(s.tasks[id].owes) || (ok && w.parts > 0) ==> s.tasks[id].owes
      ensures Alone(w) ==> s.taken == old(s.taken)
      ensures Alone(w) && ok ==> s.live == if w.parts > 0 then old(s.live) + {uri} else old(s.live)
    {
      hide Reachable;
      for part := 0 to w.parts
        invariant Handling(id, Put, uri, Writing)
        invariant forall p: nat :: p < part ==> !w.partFails(p)
        invariant old(s.taken.Keys) <= s.taken.Keys
        invariant old(s.tasks[id].owes) || part > 0 ==> s.tasks[id].owes
        invariant Alone(w) ==> s.taken == old(s.taken) && s.live == if part > 0 then old(s.live) + {uri} else old(s.live)
      {
        Others(id, w.others(7 + part));
        if w.partFails(part) {
          Do(Fail(id));
          return false;
        }
        Do(Write(id));
      }
      Do(Written(id));
      return true;
    }

    /**
     * A tag on a post, tag or file: its takedown is stored, and only then is the removal begun. A
     * store that fails may have taken effect all the same.
     */
    method ApplyModeration(id: nat, ghost kind: Kind, ghost uri: string, w: Weather) returns (outcome: Outcome)
      requires kind.Moderate? && Handling(id, kind, uri, Recording)
      modifies this
      ensures outcome == if w.fails(3) || w.fails(4) then Again else if w.missing then Missing else Done
      ensures Handling(id, kind, uri, if outcome.Again? then Queued else if outcome.Missing? then Finished else Rechecking)
      ensures !w.fails(3) || w.stored ==> kind.target in s.taken
      ensures old(s.taken.Keys) <= s.taken.Keys
      ensures Alone(w) ==> s.live == if outcome.Again? then old(s.live) else old(s.live) - {kind.target}
      ensures Alone(w) && (!w.fails(3) || w.stored) ==> s.taken == Recorded(old(s.taken), kind.target, uri)
    {
      hide Reachable;
      Others(id, w.others(3));
      if w.fails(3) {
        if w.stored {
          Do(Land(id));
        }
        Do(Fail(id));
        return Again;
      }
      Do(Record(id));
      var ok := Remove(id, kind, uri, Target, w, 4);
      return if !ok then Again else if w.missing then Missing else Done;
    }

    /** The event's record is fetched, and written or, when it is a tag, applied. */
    method Act(id: nat, ghost kind: Kind, ghost uri: string, w: Weather) returns (outcome: Outcome)
      requires !kind.Delete? && Handling(id, kind, uri, Fetching)
      modifies this
      ensures Handling(id, kind, uri, if outcome.Again? then Queued else if outcome.Missing? then Finished else Rechecking)
      ensures outcome == Acted(w, kind)
      ensures kind.Moderate? && !outcome.Again? ==> kind.target in s.taken
      ensures old(s.taken.Keys) <= s.taken.Keys
      ensures kind.Put? && outcome.Done? && w.parts > 0 ==> s.tasks[id].owes
      ensures Alone(w) && outcome.Done? ==> s.live == Lives(w, kind, uri, old(s.live))
      ensures Alone(w) && outcome.Done? ==>
                s.taken == if kind.Moderate? then Recorded(old(s.taken), kind.target, uri) else old(s.taken)
    {
      hide Reachable, Apply, Ending;
      Others(id, w.others(2));
      if w.fails(2) {
        Retry(id, kind, uri);
        return Again;
      }
      Fetch(id, kind, uri);
      if s.tasks[id].kind.Moderate? {
        outcome := ApplyModeration(id, kind, uri, w);
      } else {
        var ok := WriteRecord(id, uri, w);
        outcome := if ok then Done else Again;
      }
    }

    method Retry(id: nat, ghost kind: Kind, ghost uri: string)
      requires Handling(id, kind, uri, Fetching)
      modifies this
      ensures Handling(id, kind, uri, Queued) && s.taken == old(s.taken) && s.live == old(s.live)
    {
      Do(Fail(id));
    }

    method Fetch(id: nat, ghost kind: Kind, ghost uri: string)
      requires Handling(id, kind, uri, Fetching)
      modifies this
      ensures Handling(id, kind, uri, if kind.Moderate? then Recording else Writing)
      ensures s.taken == old(s.taken) && s.live == old(s.live)
    {
      Do(Fetched(id));
    }

    method Begin(id: nat, ghost kind: Kind, ghost uri: string)
      requires !kind.Delete? && Handling(id, kind, uri, Queued)
      modifies this
      ensures Handling(id, kind, uri, Checking) && s.taken == old(s.taken) && s.live == old(s.live)
    {
      Do(Start(id));
    }

    /**
     * An event from its first check to its last. Every part of it is a step of the protocol,
     * whatever the other loops do between them. It is done with exactly when each call it comes to
     * succeeds, dropped when a tag finds nothing indexed, and otherwise queued again.
     */
    method HandlePut(id: nat, ghost kind: Kind, ghost uri: string, w: Weather) returns (outcome: Outcome, ghost down: bool)
      requires !kind.Delete? && Handling(id, kind, uri, Queued)
      modifies this
      ensures Handling(id, kind, uri, if outcome.Again? then Queued else Finished)
      ensures outcome == Expected(w, kind, down, uri in s.taken)
      // It is found taken down if it was, and only if it is.
      ensures !w.fails(0) && uri in old(s.taken) ==> down
      ensures down ==> uri in s.taken
      // A record that is done with has been written.
      ensures kind.Put? && !down && outcome.Done? && w.parts > 0 ==> s.tasks[id].owes
      // With no other loop about, it is indexed exactly when it is not taken down, and a tag's target is removed.
      ensures Alone(w) && kind.Put? && outcome.Done? && (w.parts > 0 || uri in old(s.live) || down) ==>
                (uri in s.live <==> uri !in s.taken)
      ensures Alone(w) && kind.Moderate? && !down && outcome.Done? ==> kind.target !in s.live
      // A tag that is not found taken down has its takedown stored before it is done.
      ensures kind.Moderate? && !down && !outcome.Again? ==> kind.target in s.taken
    {
      hide Reachable, Apply, Ending, Acted;
      Begin(id, kind, uri);
      var check := RemoveIfTakenDown(id, kind, uri, w, 0);
      down := !w.fails(0) && uri in s.taken;
      if !check.NotTaken? {
        return if check.Down? then Done else Again, down;
      }
      outcome := Act(id, kind, uri, w);
      if outcome.Done? {
        check := RemoveIfTakenDown(id, kind, uri, w, 5);
        outcome := if check.Failed? then Again else Done;
      }
    }

    /** A user's DEL removes the record, whether or not it is taken down; an error queues the event again. */
    method HandleDel(id: nat, ghost uri: string, w: Weather) returns (ok: bool)
      requires Handling(id, Delete, uri, Queued)
      modifies this
      ensures Handling(id, Delete, uri, if ok then Finished else Queued)
      ensures ok <==> !w.fails(0)
      ensures Alone(w) ==> s.taken == old(s.taken) && s.live == if ok then old(s.live) - {uri} else old(s.live)
    {
      hide Reachable;
      Do(Start(id));
      ok := Remove(id, Delete, uri, Own, w, 0);
    }
  }
}
