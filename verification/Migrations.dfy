/**
 * The migration manager: runs that move each migration one phase on, and the check that says what a
 * run would do. The store keeps one phase per migration id.
 */
module Migrations {
  import opened Wrappers

  datatype Phase = DualWrite | Backfill | Cutover | Cleanup | Done
  {
    function Rank(): nat {
      match this
      case DualWrite => 0
      case Backfill => 1
      case Cutover => 2
      case Cleanup => 3
      case Done => 4
    }

    function Next(): Option<Phase> {
      match this
      case DualWrite => Some(Backfill)
      case Backfill => Some(Cutover)
      case Cutover => Some(Cleanup)
      case Cleanup => Some(Done)
      case Done => None
    }

    /** Phases in which a run has work of the migration's own to do. */
    predicate Works() { Backfill? || Cutover? || Cleanup? }
  }

  datatype Migration = Migration(id: string, multiStaged: bool)

  /** A phase's work, carried out with success. */
  datatype Work = Work(id: string, phase: Phase)

  type Store = map<string, Phase>

  function InitialPhase(m: Migration): Phase {
    if m.multiStaged then DualWrite else Backfill
  }

  function After(m: Migration, phase: Phase): Option<Phase> {
    if m.multiStaged then phase.Next() else Some(Done)
  }

  /** An id stands for one migration, even when it is registered twice. */
  predicate Consistent(migrations: seq<Migration>) {
    forall m, n :: m in migrations && n in migrations && m.id == n.id ==> m == n
  }

  /** The phases of a migration whose work must have succeeded before the stored phase. */
  predicate Earned(m: Migration, phase: Phase, work: seq<Work>) {
    && (phase.Rank() > Backfill.Rank() ==> Work(m.id, Backfill) in work)
    && (m.multiStaged && phase.Rank() > Cutover.Rank() ==> Work(m.id, Cutover) in work)
    && (m.multiStaged && phase.Rank() > Cleanup.Rank() ==> Work(m.id, Cleanup) in work)
  }

  /** The store once the flagged migrations have been set back, or on, to backfill. */
  function Flagged(store: Store, ready: seq<string>): Store {
    map id | id in store :: if id in ready then Backfill else store[id]
  }

  predicate IsPending(stored: Option<Phase>, ready: bool) {
    match stored
    case None => true
    case Some(Done) => false
    case Some(DualWrite) => ready
    case Some(_) => true
  }

  function Lookup(store: Store, id: string): Option<Phase> {
    if id in store then Some(store[id]) else None
  }

  lemma EarnedGrows(m: Migration, stored: Store, less: seq<Work>, more: seq<Work>)
    requires less <= more && (m.id in stored ==> Earned(m, stored[m.id], less))
    ensures m.id in stored ==> Earned(m, stored[m.id], more)
  {
  }

  ghost predicate AllEarned(ms: seq<Migration>, store: Store, work: seq<Work>) {
    forall m :: m in ms && m.id in store ==> Earned(m, store[m.id], work)
  }

  lemma EarnedAtFirst(ms: seq<Migration>, store: Store, work: seq<Work>, m: Migration)
    requires AllEarned(ms, store, work) && m in ms
    ensures m.id in store ==> Earned(m, store[m.id], work)
  {
  }

  /** Storing a phase that is earned by then keeps every phase earned. */
  lemma StoresEarned(ms: seq<Migration>, store: Store, less: seq<Work>, more: seq<Work>, m: Migration, phase: Phase)
    requires Consistent(ms) && AllEarned(ms, store, less) && m in ms && less <= more && Earned(m, phase, more)
    ensures AllEarned(ms, store[m.id := phase], more) && AllEarned(ms, store, more)
  {
    assert forall w :: w in less ==> w in more;
  }

  /** The phase after one whose work has succeeded is earned, and so is the first. */
  lemma NextEarned(m: Migration, phase: Phase, work: seq<Work>)
    requires phase.Works() && Earned(m, phase, work)
    ensures After(m, phase).Some? && Earned(m, After(m, phase).value, work + [Work(m.id, phase)])
  {
    assert forall w :: w in work ==> w in work + [Work(m.id, phase)];
  }

  lemma InitialEarned(m: Migration, work: seq<Work>)
    ensures Earned(m, InitialPhase(m), work)
  {
  }

  lemma FlagsApplied(before: Store, after: Store, ready: seq<string>)
    requires before.Keys == after.Keys
    requires forall id :: id in after ==> after[id] == if id in ready then Backfill else before[id]
    ensures after == Flagged(before, ready)
  {
  }

  /** None of the calls made since the count was `before` has failed. */
  ghost predicate NoneFailed(fails: nat -> bool, before: nat, calls: nat) {
    before <= calls && forall c :: before < c <= calls ==> !fails(c)
  }

  class Manager {
    const migrations: seq<Migration>
    var store: Store
    /** Every piece of work that has succeeded, in order, over all runs. */
    ghost var work: seq<Work>
    /** The ids whose turn in a run was completed and stored them or carried out a phase of theirs. */
    ghost var touched: seq<string>
    /** Calls on the graph or a migration that could have failed, over all runs. */
    var calls: nat

    /** No registered migration is stored past a phase whose work has not succeeded. */
    ghost predicate Valid()
      reads this
    {
      Consistent(migrations) && AllEarned(migrations, store, work)
    }

    constructor (migrations: seq<Migration>)
      requires Consistent(migrations)
      ensures Valid() && this.migrations == migrations && store == map[] && work == [] && touched == []
    {
      this.migrations, store, work, touched, calls := migrations, map[], [], [], 0;
    }

    /** Flags every stored migration that is listed; a failure leaves the first ones flagged. */
    method ApplyFlags(ids: seq<string>, ready: seq<string>, fails: nat -> bool) returns (ok: bool)
      requires Valid() && forall id :: id in ids <==> id in store
      modifies this`store, this`calls
      ensures Valid() && store.Keys == old(store).Keys
      ensures ok ==> store == Flagged(old(store), ready)
      ensures forall id :: id in store ==> store[id] == old(store)[id] || (id in ready && store[id] == Backfill)
      ensures if ok then NoneFailed(fails, old(calls), calls) else fails(calls)
    {
      hide Flagged, Consistent;
      for i := 0 to |ids|
        invariant Valid() && store.Keys == old(store).Keys && NoneFailed(fails, old(calls), calls)
        invariant forall id :: id in store ==>
          store[id] == if id in ids[..i] && id in ready then Backfill else old(store)[id]
      {
        if ids[i] in ready {
          calls := calls + 1;
          if fails(calls) {
            return false;
          }
          store := store[ids[i] := Backfill];
        }
      }
      assert ids[..|ids|] == ids;
      FlagsApplied(old(store), store, ready);
      return true;
    }

    /** One registered migration of a run, against the phases read after flagging. */
    method Advance(m: Migration, stored: Store, fails: nat -> bool) returns (ok: bool)
      requires Valid() && m in migrations
      requires m.id in stored ==> Earned(m, stored[m.id], work)
      modifies this
      ensures Valid()
      ensures if ok then NoneFailed(fails, old(calls), calls) else fails(calls)
      ensures ok ==> store == Advanced(old(store), m, Lookup(stored, m.id))
      ensures !ok ==> store == old(store) || (m.id !in stored && store == old(store)[m.id := InitialPhase(m)])
      ensures forall id :: id in old(store) ==> id in store
      ensures forall id :: id != m.id ==> Lookup(store, id) == Lookup(old(store), id)
      ensures ok ==> work == old(work) + WorkOf(m, Lookup(stored, m.id))
      ensures ok ==> touched == old(touched) + TouchOf(m, stored)
    {
      hide Flagged, RunStore, RunWork, Touched, Earned, AllEarned, Consistent;
      InitialEarned(m, work);
      StoresEarned(migrations, store, work, work, m, InitialPhase(m));
      var phase;
      if m.id !in stored {
        calls := calls + 1;
        if fails(calls) {
          return false;
        }
        store := store[m.id := InitialPhase(m)];
        touched := touched + [m.id];
        if m.multiStaged {
          return true;
        }
        phase := Backfill;
      } else {
        phase := stored[m.id];
      }
      if !phase.Works() {
        return true;
      }
      if m.id in stored {
        ok := Execute(m, phase, fails);
        touched := touched + if ok then [m.id] else [];
      } else {
        ok := Execute(m, phase, fails);
      }
    }

    /** Carries out the work of a phase, and stores the next one. */
    method Execute(m: Migration, phase: Phase, fails: nat -> bool) returns (ok: bool)
      requires Valid() && m in migrations && phase.Works() && Earned(m, phase, work)
      modifies this`store, this`work, this`calls
      ensures Valid()
      ensures if ok then NoneFailed(fails, old(calls), calls) else fails(calls) && store == old(store)
      ensures ok ==> store == old(store)[m.id := After(m, phase).value] && work == old(work) + [Work(m.id, phase)]
    {
      hide Earned, AllEarned, Consistent;
      calls := calls + 1;
      if fails(calls) {
        return false;
      }
      NextEarned(m, phase, work);
      var next := After(m, phase);
      ghost var before := work;
      work := work + [Work(m.id, phase)];
      StoresEarned(migrations, store, before, work, m, next.value);
      calls := calls + 1;
      if fails(calls) {
        return false;
      }
      store := store[m.id := next.value];
      return true;
    }

    /**
     * One run: flag, read the phases again, and move every registered migration on. It stops at the
     * first call that fails, whatever that leaves behind.
     */
    method Run(ready: seq<string>, ids: seq<string>, fails: nat -> bool) returns (ok: bool)
      requires Valid() && forall id :: id in ids <==> id in store
      modifies this
      ensures Valid()
      ensures if ok then NoneFailed(fails, old(calls), calls) else fails(calls)
      ensures MayFollow(migrations, old(store), ready, store, ok)
      ensures ok ==> work == old(work) + RunWork(migrations, Flagged(old(store), ready))
      ensures ok ==> touched == old(touched) + Touched(migrations, Flagged(old(store), ready))
    {
      hide RunStore, RunWork, Touched, Consistent;
      calls := calls + 1;
      if fails(calls) {
        return false;
      }
      ok := ApplyFlags(ids, ready, fails);
      if !ok {
        return;
      }
      calls := calls + 1;
      if fails(calls) {
        return false;
      }
      ok := AdvanceAll(fails);
    }

    method AdvanceAll(fails: nat -> bool) returns (ok: bool)
      requires Valid()
      modifies this
      ensures Valid()
      ensures if ok then NoneFailed(fails, old(calls), calls) else fails(calls)
      ensures ok ==> store == RunStore(old(store), migrations, old(store))
      ensures !ok ==> forall m :: m in migrations ==> MovesAtMost(m, Lookup(old(store), m.id), Lookup(store, m.id))
      ensures ok ==> work == old(work) + RunWork(migrations, old(store))
      ensures ok ==> touched == old(touched) + Touched(migrations, old(store))
    {
      hide Earned, AllEarned, WorkOf, Advanced, Touches, PhaseAfterRun, InitialPhase, MovesAtMost, Consistent;
      hide RunStore, RunWork, Touched;
      StaysPut(migrations, store);
      var stored := store;
      assert migrations[0..] == migrations;
      for i := 0 to |migrations|
        invariant Valid() && old(work) <= work && NoneFailed(fails, old(calls), calls)
        invariant forall m :: m in migrations ==> MovesAtMost(m, Lookup(stored, m.id), Lookup(store, m.id))
        invariant RunStore(store, migrations[i..], stored) == RunStore(stored, migrations, stored)
        invariant work + RunWork(migrations[i..], stored) == old(work) + RunWork(migrations, stored)
        invariant touched + Touched(migrations[i..], stored) == old(touched) + Touched(migrations, stored)
      {
        var m := migrations[i];
        EarnedAtFirst(migrations, stored, old(work), m);
        EarnedGrows(m, stored, old(work), work);
        ghost var before, reached := work, touched;
        ghost var last := store;
        ok := Advance(m, stored, fails);
        AdvanceMovesAtMost(migrations, m, stored, last, store, ok);
        if !ok {
          return;
        }
        TurnOf(migrations, i, last, stored);
        SeqAssoc(before, WorkOf(m, Lookup(stored, m.id)), RunWork(migrations[i + 1..], stored));
        SeqAssoc(reached, TouchOf(m, stored), Touched(migrations[i + 1..], stored));
      }
      NoTurns(store, stored);
      assert migrations[|migrations|..] == [];
      return true;
    }

    /** What a run would have to do, with the phase each migration is stored at before it. */
    method Check(ready: seq<string>) returns (pending: seq<(string, string)>)
      ensures pending == Pending(migrations, store, ready)
      ensures forall i :: 0 <= i < |pending| ==> SaysPhase(pending[i].1, pending[i].0, store)
    {
      PendingSays(migrations, store, ready);
      hide Pending, SaysPhase, PhaseName, IsPending;
      pending := [];
      assert migrations[0..] == migrations;
      for i := 0 to |migrations|
        invariant pending + Pending(migrations[i..], store, ready) == Pending(migrations, store, ready)
      {
        PendingTurn(migrations, i, store, ready);
        ghost var before := pending;
        var id := migrations[i].id;
        var stored := Lookup(store, id);
        if IsPending(stored, id in ready) {
          pending := pending + [(id, PhaseName(stored))];
        }
        SeqAssoc(before, PendingOf(migrations[i], store, ready), Pending(migrations[i + 1..], store, ready));
      }
      NonePending(store, ready);
      assert migrations[|migrations|..] == [];
    }
  }

  /** Whether a run stores a migration or executes one of its phases, given what it reads. */
  predicate Touches(stored: Option<Phase>) {
    stored.None? || stored.value.Works()
  }

  /** The work a run does for a migration, given the phase it reads. */
  function WorkOf(m: Migration, stored: Option<Phase>): seq<Work> {
    match stored
    case None => if m.multiStaged then [] else [Work(m.id, Backfill)]
    case Some(phase) => if phase.Works() then [Work(m.id, phase)] else []
  }

  function Advanced(store: Store, m: Migration, stored: Option<Phase>): Store {
    match stored
    case None => store[m.id := if m.multiStaged then DualWrite else Done]
    case Some(phase) => if phase.Works() then store[m.id := After(m, phase).value] else store
  }

  /** The phase of a migration after a successful run that read `stored`. */
  function PhaseAfterRun(m: Migration, stored: Option<Phase>): Phase {
    match stored
    case None => if m.multiStaged then DualWrite else Done
    case Some(phase) => if phase.Works() then After(m, phase).value else phase
  }

  /** Where a run that read `stored` may leave a migration, wherever it stopped. */
  predicate MovesAtMost(m: Migration, stored: Option<Phase>, after: Option<Phase>) {
    || after == stored
    || after == Some(PhaseAfterRun(m, stored))
    || (stored.None? && after == Some(InitialPhase(m)))
  }

  /** The phase as a run reads it once its flags are applied. */
  function FlaggedPhase(stored: Option<Phase>, ready: bool): Option<Phase> {
    if stored.Some? && ready then Some(Backfill) else stored
  }

  /** The stores one run may lead to: exactly one when it succeeds. */
  ghost predicate MayFollow(ms: seq<Migration>, before: Store, ready: seq<string>, after: Store, ok: bool) {
    if ok then after == RunStore(Flagged(before, ready), ms, Flagged(before, ready))
    else forall m :: m in ms ==>
      || Lookup(after, m.id) == Lookup(before, m.id)
      || MovesAtMost(m, FlaggedPhase(Lookup(before, m.id), m.id in ready), Lookup(after, m.id))
  }

  lemma StaysPut(ms: seq<Migration>, store: Store)
    ensures forall m :: m in ms ==> MovesAtMost(m, Lookup(store, m.id), Lookup(store, m.id))
  {
  }

  lemma {:induction false} AdvanceMovesAtMost(ms: seq<Migration>, m: Migration, stored: Store, before: Store, after: Store, ok: bool)
    requires Consistent(ms) && m in ms
    requires forall n :: n in ms ==> MovesAtMost(n, Lookup(stored, n.id), Lookup(before, n.id))
    requires if ok then after == Advanced(before, m, Lookup(stored, m.id))
             else after == before || (m.id !in stored && after == before[m.id := InitialPhase(m)])
    ensures forall n :: n in ms ==> MovesAtMost(n, Lookup(stored, n.id), Lookup(after, n.id))
  {
    forall n | n in ms ensures MovesAtMost(n, Lookup(stored, n.id), Lookup(after, n.id)) {
      if n.id != m.id {
        assert Lookup(after, n.id) == Lookup(before, n.id);
      }
    }
  }

  function RunStore(store: Store, ms: seq<Migration>, stored: Store): Store
    decreases |ms|
  {
    if ms == [] then store
    else RunStore(Advanced(store, ms[0], Lookup(stored, ms[0].id)), ms[1..], stored)
  }

  function RunWork(ms: seq<Migration>, stored: Store): seq<Work> {
    if ms == [] then [] else WorkOf(ms[0], Lookup(stored, ms[0].id)) + RunWork(ms[1..], stored)
  }

  function TouchOf(m: Migration, stored: Store): seq<string> {
    if Touches(Lookup(stored, m.id)) then [m.id] else []
  }

  function Touched(ms: seq<Migration>, stored: Store): seq<string> {
    if ms == [] then [] else TouchOf(ms[0], stored) + Touched(ms[1..], stored)
  }

  /** What is left of a run is the turn of the next migration and what is left then. */
  lemma TurnOf(ms: seq<Migration>, i: nat, store: Store, stored: Store)
    requires i < |ms|
    ensures RunStore(store, ms[i..], stored) == RunStore(Advanced(store, ms[i], Lookup(stored, ms[i].id)), ms[i + 1..], stored)
    ensures RunWork(ms[i..], stored) == WorkOf(ms[i], Lookup(stored, ms[i].id)) + RunWork(ms[i + 1..], stored)
    ensures Touched(ms[i..], stored) == TouchOf(ms[i], stored) + Touched(ms[i + 1..], stored)
  {
    assert ms[i..][0] == ms[i] && ms[i..][1..] == ms[i + 1..];
  }

  lemma NoTurns(store: Store, stored: Store)
    ensures RunStore(store, [], stored) == store && RunWork([], stored) == [] && Touched([], stored) == []
  {
  }

  function PhaseName(stored: Option<Phase>): string {
    match stored
    case None => "new"
    case Some(DualWrite) => "dual_write"
    case Some(Backfill) => "backfill"
    case Some(Cutover) => "cutover"
    case Some(Cleanup) => "cleanup"
    case Some(Done) => "done"
  }

  function Pending(ms: seq<Migration>, store: Store, ready: seq<string>): seq<(string, string)> {
    if ms == [] then [] else PendingOf(ms[0], store, ready) + Pending(ms[1..], store, ready)
  }

  function PendingOf(m: Migration, store: Store, ready: seq<string>): seq<(string, string)> {
    var stored := Lookup(store, m.id);
    if IsPending(stored, m.id in ready) then [(m.id, PhaseName(stored))] else []
  }

  lemma PendingTurn(ms: seq<Migration>, i: nat, store: Store, ready: seq<string>)
    requires i < |ms|
    ensures Pending(ms[i..], store, ready) == PendingOf(ms[i], store, ready) + Pending(ms[i + 1..], store, ready)
  {
    assert ms[i..][0] == ms[i] && ms[i..][1..] == ms[i + 1..];
  }

  lemma NonePending(store: Store, ready: seq<string>)
    ensures Pending([], store, ready) == []
  {
  }

  /** The name of the phase an id is stored at, or that it is not stored. */
  predicate SaysPhase(name: string, id: string, store: Store) {
    && (name == "new" <==> id !in store)
    && (name == "dual_write" <==> id in store && store[id].DualWrite?)
    && (name == "backfill" <==> id in store && store[id].Backfill?)
    && (name == "cutover" <==> id in store && store[id].Cutover?)
    && (name == "cleanup" <==> id in store && store[id].Cleanup?)
    && (name == "done" <==> id in store && store[id].Done?)
  }

  lemma NameSays(stored: Option<Phase>, id: string, store: Store)
    requires stored == Lookup(store, id)
    ensures SaysPhase(PhaseName(stored), id, store)
  {
    var names := ["new", "dual_write", "backfill", "cutover", "cleanup", "done"];
    assert forall i, j :: 0 <= i < j < |names| ==> names[i][0] != names[j][0] || names[i][1] != names[j][1];
  }

  lemma {:induction false} PendingSays(ms: seq<Migration>, store: Store, ready: seq<string>)
    ensures forall i :: 0 <= i < |Pending(ms, store, ready)| ==>
              SaysPhase(Pending(ms, store, ready)[i].1, Pending(ms, store, ready)[i].0, store)
  {
    if ms != [] {
      NameSays(Lookup(store, ms[0].id), ms[0].id, store);
      PendingSays(ms[1..], store, ready);
    }
  }

  function Ids(pending: seq<(string, string)>): seq<string> {
    seq(|pending|, i requires 0 <= i < |pending| => pending[i].0)
  }

  /** The phases a run does for an id. */
  function WorkFor(work: seq<Work>, id: string): seq<Phase> {
    if work == [] then []
    else (if work[0].id == id then [work[0].phase] else []) + WorkFor(work[1..], id)
  }

  /** What a run touches is what it stores anew or does work of. */
  lemma {:induction false} TouchedMeans(ms: seq<Migration>, stored: Store, id: string)
    ensures id in Touched(ms, stored)
       <==> (id !in stored && exists m :: m in ms && m.id == id) || WorkFor(RunWork(ms, stored), id) != []
  {
    if ms != [] {
      TouchedMeans(ms[1..], stored, id);
      WorkForConcat(WorkOf(ms[0], Lookup(stored, ms[0].id)), RunWork(ms[1..], stored), id);
      TouchMeans(ms[0], stored, id);
      assert forall m :: m in ms <==> m == ms[0] || m in ms[1..];
    }
  }

  lemma TouchMeans(m: Migration, stored: Store, id: string)
    ensures id in TouchOf(m, stored)
       <==> m.id == id && (id !in stored || WorkFor(WorkOf(m, Lookup(stored, m.id)), id) != [])
    ensures m.id != id ==> WorkFor(WorkOf(m, Lookup(stored, m.id)), id) == []
    ensures id !in stored && WorkFor(WorkOf(m, Lookup(stored, m.id)), id) != [] ==> m.id == id
  {
    assert forall w: Work :: [w][1..] == [];
  }

  // ---------------------------------------------------------------------------------------
  // The check mirrors the run

  /** A registered migration that is done and listed as ready. */
  predicate ResetDone(m: Migration, store: Store, ready: seq<string>) {
    Lookup(store, m.id) == Some(Done) && m.id in ready
  }

  ghost predicate NoneReset(ms: seq<Migration>, store: Store, ready: seq<string>) {
    forall m :: m in ms ==> !ResetDone(m, store, ready)
  }

  /**
   * The check lists exactly the ids a run would touch, in the same order, exactly when no registered
   * migration that is done is listed as ready.
   */
  lemma {:induction false} CheckMirrorsRun(ms: seq<Migration>, store: Store, ready: seq<string>)
    ensures Ids(Pending(ms, store, ready)) == Touched(ms, Flagged(store, ready)) <==> NoneReset(ms, store, ready)
  {
    if NoneReset(ms, store, ready) {
      MirrorHolds(ms, store, ready);
    } else {
      MirrorBreaks(ms, store, ready);
    }
  }

  lemma PendingIffTouched(m: Migration, store: Store, ready: seq<string>)
    ensures IsPending(Lookup(store, m.id), m.id in ready) ==> Touches(Lookup(Flagged(store, ready), m.id))
    ensures IsPending(Lookup(store, m.id), m.id in ready) == Touches(Lookup(Flagged(store, ready), m.id))
       <==> !ResetDone(m, store, ready)
  {
  }

  lemma {:induction false} MirrorHolds(ms: seq<Migration>, store: Store, ready: seq<string>)
    requires NoneReset(ms, store, ready)
    ensures Ids(Pending(ms, store, ready)) == Touched(ms, Flagged(store, ready))
  {
    if ms != [] {
      PendingIffTouched(ms[0], store, ready);
      MirrorHolds(ms[1..], store, ready);
    }
  }

  /** The check never lists more than a run touches; one reset migration makes it list fewer. */
  lemma {:induction false} MirrorBreaks(ms: seq<Migration>, store: Store, ready: seq<string>)
    ensures |Pending(ms, store, ready)| <= |Touched(ms, Flagged(store, ready))|
    ensures !NoneReset(ms, store, ready) ==> |Pending(ms, store, ready)| < |Touched(ms, Flagged(store, ready))|
  {
    if ms != [] {
      PendingIffTouched(ms[0], store, ready);
      MirrorBreaks(ms[1..], store, ready);
    }
  }

  // ---------------------------------------------------------------------------------------
  // Three runs

  lemma {:induction false} RunMovesOn(store: Store, ms: seq<Migration>, stored: Store, m: Migration)
    requires Consistent(ms) && Consistent([m] + ms)
    requires m in ms || Lookup(store, m.id) == Some(PhaseAfterRun(m, Lookup(stored, m.id)))
    requires Lookup(store, m.id) == Lookup(stored, m.id) || Lookup(store, m.id) == Some(PhaseAfterRun(m, Lookup(stored, m.id)))
    ensures Lookup(RunStore(store, ms, stored), m.id) == Some(PhaseAfterRun(m, Lookup(stored, m.id)))
    decreases |ms|
  {
    if ms != [] {
      var next := Advanced(store, ms[0], Lookup(stored, ms[0].id));
      assert ms[0] in [m] + ms && m in [m] + ms;
      assert forall n :: n in ms[1..] ==> n in ms;
      assert forall n :: n in [m] + ms[1..] ==> n in [m] + ms;
      assert m != ms[0] ==> m.id != ms[0].id;
      RunMovesOn(next, ms[1..], stored, m);
    }
  }

  ghost predicate DistinctIds(ms: seq<Migration>) {
    forall i, j :: 0 <= i < j < |ms| ==> ms[i].id != ms[j].id
  }

  lemma {:induction false} WorkForConcat(a: seq<Work>, b: seq<Work>, id: string)
    ensures WorkFor(a + b, id) == WorkFor(a, id) + WorkFor(b, id)
  {
    if a == [] {
      assert a + b == b;
    } else {
      assert (a + b)[0] == a[0] && (a + b)[1..] == a[1..] + b;
      WorkForConcat(a[1..], b, id);
      var first := if a[0].id == id then [a[0].phase] else [];
      SeqAssoc(first, WorkFor(a[1..], id), WorkFor(b, id));
      assert WorkFor(a, id) == first + WorkFor(a[1..], id);
      hide WorkFor;
    }
  }

  /** A run does the work of the phase it reads, once for each registration. */
  lemma {:induction false} RunWorksOnce(ms: seq<Migration>, stored: Store, m: Migration)
    requires DistinctIds(ms)
    ensures m in ms ==> WorkFor(RunWork(ms, stored), m.id) == WorkFor(WorkOf(m, Lookup(stored, m.id)), m.id)
    ensures (forall n :: n in ms ==> n.id != m.id) ==> WorkFor(RunWork(ms, stored), m.id) == []
  {
    if ms != [] {
      RunWorksOnce(ms[1..], stored, m);
      WorkForConcat(WorkOf(ms[0], Lookup(stored, ms[0].id)), RunWork(ms[1..], stored), m.id);
      if m == ms[0] {
        assert forall n :: n in ms[1..] ==> n.id != m.id;
      }
    }
  }

  /** The store after successful runs with the given ready lists, and the work they did. */
  function Runs(ms: seq<Migration>, store: Store, lists: seq<seq<string>>): (Store, seq<Work>)
    decreases |lists|
  {
    if lists == [] then (store, [])
    else
      var flagged := Flagged(store, lists[0]);
      var rest := Runs(ms, RunStore(flagged, ms, flagged), lists[1..]);
      (rest.0, RunWork(ms, flagged) + rest.1)
  }

  /** The phases of a multi-staged migration from its flagged run on, and after the third. */
  function PhaseAfter(runs: nat): Phase {
    match runs
    case 1 => Cutover
    case 2 => Cleanup
    case _ => Done
  }

  function PhasesDone(runs: nat): seq<Phase> {
    if runs == 1 then [Backfill] else if runs == 2 then [Backfill, Cutover] else [Backfill, Cutover, Cleanup]
  }

  lemma {:induction false} OneRun(m: Migration, ms: seq<Migration>, store: Store, ready: seq<string>, phase: Option<Phase>)
    requires DistinctIds(ms) && m in ms && Lookup(Flagged(store, ready), m.id) == phase
    ensures Lookup(Runs(ms, store, [ready]).0, m.id) == Some(PhaseAfterRun(m, phase))
    ensures WorkFor(Runs(ms, store, [ready]).1, m.id) == WorkFor(WorkOf(m, phase), m.id)
  {
    hide RunStore, RunWork, WorkFor, WorkOf, PhaseAfterRun, Flagged;
    var flagged, lists := Flagged(store, ready), [ready];
    assert lists[1..] == [];
    assert Consistent([m] + ms);
    RunMovesOn(flagged, ms, flagged, m);
    RunWorksOnce(ms, flagged, m);
    assert Runs(ms, store, lists) == (RunStore(flagged, ms, flagged), RunWork(ms, flagged) + []);
    assert RunWork(ms, flagged) + [] == RunWork(ms, flagged);
  }

  lemma {:induction false} RunsThen(ms: seq<Migration>, store: Store, lists: seq<seq<string>>, last: seq<string>)
    ensures Runs(ms, store, lists + [last]).0 == Runs(ms, Runs(ms, store, lists).0, [last]).0
    ensures Runs(ms, store, lists + [last]).1 == Runs(ms, store, lists).1 + Runs(ms, Runs(ms, store, lists).0, [last]).1
    decreases |lists|
  {
    hide RunStore, RunWork, Flagged;
    if lists == [] {
      assert lists + [last] == [last];
    } else {
      assert (lists + [last])[0] == lists[0] && (lists + [last])[1..] == lists[1..] + [last];
      var flagged := Flagged(store, lists[0]);
      var next := RunStore(flagged, ms, flagged);
      RunsThen(ms, next, lists[1..], last);
      SeqAssoc(RunWork(ms, flagged), Runs(ms, next, lists[1..]).1, Runs(ms, Runs(ms, store, lists).0, [last]).1);
    }
  }

  lemma SeqAssoc<T>(a: seq<T>, b: seq<T>, c: seq<T>)
    ensures a + (b + c) == (a + b) + c
  {
  }

  /** A flag of the first run is applied to a stored migration only. */
  function PhaseThen(stored: bool, runs: nat): Phase {
    if stored then PhaseAfter(runs) else DualWrite
  }

  /**
   * A multi-staged migration flagged for the first of some successful runs and not for the others:
   * when it is stored by then it is done after the third and not before, having run backfill,
   * cutover and cleanup once each in that order, and later runs leave it alone. When the flagged run
   * is the one that first stores it, the flag is not applied, and it stays where it was stored.
   */
  lemma {:induction false} DoneInThreeRuns(m: Migration, ms: seq<Migration>, store: Store, lists: seq<seq<string>>)
    requires DistinctIds(ms) && m in ms && m.multiStaged
    requires lists != [] && m.id in lists[0] && forall i :: 0 < i < |lists| ==> m.id !in lists[i]
    ensures Lookup(Runs(ms, store, lists).0, m.id) == Some(PhaseThen(m.id in store, |lists|))
    ensures WorkFor(Runs(ms, store, lists).1, m.id) == if m.id in store then PhasesDone(|lists|) else []
    decreases |lists|
  {
    if |lists| == 1 {
      assert lists == [lists[0]];
      OneRun(m, ms, store, lists[0], if m.id in store then Some(Backfill) else None);
    } else {
      hide Runs, RunStore, RunWork, WorkFor, PhaseThen, PhasesDone, Flagged, DistinctIds;
      var front, last := lists[..|lists| - 1], lists[|lists| - 1];
      DoneInThreeRuns(m, ms, store, front);
      assert front + [last] == lists;
      RunThree(m, ms, store, front, last);
    }
  }

  lemma {:induction false} OwnWork(m: Migration, phase: Phase)
    ensures WorkFor(WorkOf(m, Some(phase)), m.id) == if phase.Works() then [phase] else []
  {
    if phase.Works() {
      assert [Work(m.id, phase)][1..] == [];
    }
  }

  lemma Unlisted(store: Store, ready: seq<string>, id: string)
    requires id !in ready
    ensures Lookup(Flagged(store, ready), id) == Lookup(store, id)
  {
  }

  lemma NextPhase(m: Migration, runs: nat)
    requires m.multiStaged && runs > 0
    ensures PhaseAfterRun(m, Some(PhaseAfter(runs))) == PhaseAfter(runs + 1)
  {
  }

  lemma NextWork(stored: bool, runs: nat)
    requires runs > 0
    ensures var phase := PhaseThen(stored, runs);
            (if stored then PhasesDone(runs + 1) else [])
              == (if stored then PhasesDone(runs) else []) + if phase.Works() then [phase] else []
  {
  }

  lemma {:induction false} RunThree(m: Migration, ms: seq<Migration>, store: Store, front: seq<seq<string>>, last: seq<string>)
    requires DistinctIds(ms) && m in ms && m.multiStaged && front != [] && m.id !in last
    requires Lookup(Runs(ms, store, front).0, m.id) == Some(PhaseThen(m.id in store, |front|))
    requires WorkFor(Runs(ms, store, front).1, m.id) == if m.id in store then PhasesDone(|front|) else []
    ensures Lookup(Runs(ms, store, front + [last]).0, m.id) == Some(PhaseThen(m.id in store, |front| + 1))
    ensures WorkFor(Runs(ms, store, front + [last]).1, m.id) == if m.id in store then PhasesDone(|front| + 1) else []
  {
    hide Runs, RunStore, RunWork, WorkFor, WorkOf, PhaseAfter, PhasesDone, DistinctIds, Flagged;
    RunsThen(ms, store, front, last);
    var s, phase := Runs(ms, store, front).0, PhaseThen(m.id in store, |front|);
    Unlisted(s, last, m.id);
    OneRun(m, ms, s, last, Some(phase));
    OwnWork(m, phase);
    NextPhase(m, |front|);
    NextWork(m.id in store, |front|);
    WorkForConcat(Runs(ms, store, front).1, Runs(ms, s, [last]).1, m.id);
  }

  /** A single-staged migration is stored, backfilled and done in the first successful run. */
  lemma SingleStagedInOneRun(m: Migration, ms: seq<Migration>, store: Store, ready: seq<string>)
    requires DistinctIds(ms) && m in ms && !m.multiStaged && m.id !in store
    ensures Lookup(Runs(ms, store, [ready]).0, m.id) == Some(Done)
    ensures WorkFor(Runs(ms, store, [ready]).1, m.id) == [Backfill]
  {
    hide Runs;
    OneRun(m, ms, store, ready, None);
    assert [Work(m.id, Backfill)][1..] == [];
  }

  /** So it is done exactly when it was stored before the flagged run and two more have succeeded. */
  lemma {:induction false} DoneIffStored(m: Migration, ms: seq<Migration>, store: Store, lists: seq<seq<string>>)
    requires DistinctIds(ms) && m in ms && m.multiStaged
    requires lists != [] && m.id in lists[0] && forall i :: 0 < i < |lists| ==> m.id !in lists[i]
    ensures Lookup(Runs(ms, store, lists).0, m.id) == Some(Done) <==> m.id in store && |lists| >= 3
  {
    DoneInThreeRuns(m, ms, store, lists);
  }

  // ---------------------------------------------------------------------------------------
  // Runs that may fail

  /** A run with its ready list, whether it succeeded, and the store it left. */
  datatype RunRecord = RunRecord(ready: seq<string>, ok: bool, after: Store)

  ghost predicate History(ms: seq<Migration>, store: Store, runs: seq<RunRecord>)
    decreases |runs|
  {
    runs == []
    || (MayFollow(ms, store, runs[0].ready, runs[0].after, runs[0].ok) && History(ms, runs[0].after, runs[1..]))
  }

  function Final(store: Store, runs: seq<RunRecord>): Store {
    if runs == [] then store else runs[|runs| - 1].after
  }

  function Successes(runs: seq<RunRecord>): nat {
    if runs == [] then 0 else (if runs[0].ok then 1 else 0) + Successes(runs[1..])
  }

  /** A migration in the hands of runs that do not flag it. */
  predicate Unflagged(m: Migration, runs: seq<RunRecord>) {
    forall i :: 0 <= i < |runs| ==> m.id !in runs[i].ready
  }

  /** One unflagged run moves it by a phase when it succeeds, and by one at most when it does not. */
  lemma {:induction false} OneRecord(m: Migration, ms: seq<Migration>, store: Store, run: RunRecord)
    requires DistinctIds(ms) && m in ms && m.id !in run.ready
    requires MayFollow(ms, store, run.ready, run.after, run.ok)
    ensures var before, after := Lookup(store, m.id), Lookup(run.after, m.id);
            if run.ok then after == Some(PhaseAfterRun(m, before)) else MovesAtMost(m, before, after)
  {
    if run.ok {
      hide RunStore, PhaseAfterRun;
      var flagged := Flagged(store, run.ready);
      assert Consistent([m] + ms);
      RunMovesOn(flagged, ms, flagged, m);
    }
  }

  /**
   * From backfill on, every successful run takes a multi-staged migration a phase further at least,
   * whatever failed runs come between, and none takes it back; before, no unflagged run moves it
   * past dual write.
   */
  lemma {:induction false} SuccessesMoveOn(m: Migration, ms: seq<Migration>, store: Store, runs: seq<RunRecord>)
    requires DistinctIds(ms) && m in ms && m.multiStaged && History(ms, store, runs) && Unflagged(m, runs)
    ensures var start, end := Lookup(store, m.id), Lookup(Final(store, runs), m.id);
            if start.Some? && start != Some(DualWrite)
            then end.Some? && (end == Some(Done) || end.value.Rank() >= start.value.Rank() + Successes(runs))
            else end.None? || end == Some(DualWrite)
    decreases |runs|
  {
    hide RunStore, MayFollow;
    if runs != [] {
      OneRecord(m, ms, store, runs[0]);
      SuccessesMoveOn(m, ms, runs[0].after, runs[1..]);
      assert Final(store, runs) == Final(runs[0].after, runs[1..]);
    }
  }

  /**
   * Flagged for one successful run, then for no others: with two more successes, and any failed
   * runs between, it is done exactly when it was stored before the flagged run.
   */
  lemma {:induction false} DoneByThirdSuccess(m: Migration, ms: seq<Migration>, store: Store, runs: seq<RunRecord>)
    requires DistinctIds(ms) && m in ms && m.multiStaged && History(ms, store, runs)
    requires runs != [] && runs[0].ok && m.id in runs[0].ready && Unflagged(m, runs[1..]) && Successes(runs) >= 3
    ensures Lookup(Final(store, runs), m.id) == Some(Done) <==> m.id in store
  {
    hide RunStore;
    var flagged := Flagged(store, runs[0].ready);
    assert Consistent([m] + ms);
    RunMovesOn(flagged, ms, flagged, m);
    SuccessesMoveOn(m, ms, runs[0].after, runs[1..]);
    assert Final(store, runs) == Final(runs[0].after, runs[1..]);
  }
}
