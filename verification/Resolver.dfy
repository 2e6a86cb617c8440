/** Users' homeserver mappings, as the resolver binds them and marks them stale. */
module Resolver {
  import opened Wrappers
  import Backoff

  /** A stored record: the signed packet and its timestamp. */
  datatype Packet = Packet(bytes: string, timestamp: int)

  /** A `HOSTED_BY` edge. */
  datatype Mapping = Mapping(homeserver: string, stale: bool, record: Option<Packet>)

  /** A PKDNS lookup: failed, nothing found, or a packet and what can be read and kept of it. */
  datatype Lookup = Failed | Missing | Published(homeserver: Option<string>, stored: Option<Packet>)
  {
    function Named(): Option<string> {
      if Published? then homeserver else None
    }

    function Storable(): Option<Packet> {
      if Published? then stored else None
    }

    /** It binds a user without a mapping. */
    predicate Binds() {
      Named().Some? && Storable().Some?
    }
  }

  datatype StaleReason = Unresolved | HsChanged

  datatype MappingState = UnboundState | ActiveState | StaleState

  datatype Outcome = ResolvedOutcome | UnresolvedOutcome | ErrorOutcome

  datatype Resolution =
    | Unbound
    | Bound
    | Confirmed(wasStale: bool)
    | Diverged(reason: StaleReason, wasStale: bool)
    | LookupFailed(mapping: MappingState)
  {
    function Outcome(): Outcome {
      match this
      case Bound => ResolvedOutcome
      case Confirmed(_) => ResolvedOutcome
      case Diverged(HsChanged, _) => ResolvedOutcome
      case Unbound => UnresolvedOutcome
      case Diverged(Unresolved, _) => UnresolvedOutcome
      case LookupFailed(_) => ErrorOutcome
    }

    function MappingBefore(): MappingState {
      match this
      case Unbound => UnboundState
      case Bound => UnboundState
      case Confirmed(wasStale) => if wasStale then StaleState else ActiveState
      case Diverged(_, wasStale) => if wasStale then StaleState else ActiveState
      case LookupFailed(mapping) => mapping
    }

    function NewlyStale(): Option<StaleReason> {
      if Diverged? && !wasStale then Some(reason) else None
    }
  }

  function StateOf(graph: map<string, Mapping>, user: string): MappingState {
    if user !in graph then UnboundState else if graph[user].stale then StaleState else ActiveState
  }

  /** `coalesce($record, r.record)`: a missing record leaves the stored one. */
  function Coalesce(found: Option<Packet>, stored: Option<Packet>): Option<Packet> {
    if found.Some? then found else stored
  }

  /** Whether resolving writes to the graph: a binding, or the stale flag of a bound user. */
  predicate Writes(bound: bool, lookup: Lookup) {
    !lookup.Failed? && (bound || (lookup.Published? && lookup.homeserver.Some? && lookup.stored.Some?))
  }

  // ---------------------------------------------------------------------------------------
  // What a history of lookups means, independently of the steps

  /** A lookup of a user whose outcome the graph has taken in. */
  datatype Event = Event(user: string, lookup: Lookup)

  /** The homeserver of the user's first binding. */
  function BoundTo(base: map<string, Mapping>, history: seq<Event>, user: string): Option<string> {
    if history == [] then
      if user in base then Some(base[user].homeserver) else None
    else
      var before := BoundTo(base, history[..|history| - 1], user);
      var last := history[|history| - 1];
      if before.None? && last.user == user && last.lookup.Binds() then last.lookup.Named() else before
  }

  /** Whether the last lookup that succeeded named another homeserver than the bound one, or none. */
  function HasDiverged(base: map<string, Mapping>, history: seq<Event>, user: string): bool {
    if history == [] then
      user in base && base[user].stale
    else
      var last := history[|history| - 1];
      if last.user == user && !last.lookup.Failed? then last.lookup.Named() != BoundTo(base, history, user)
      else HasDiverged(base, history[..|history| - 1], user)
  }

  /** The last record fit to keep since the user was bound. */
  function KeptRecord(base: map<string, Mapping>, history: seq<Event>, user: string): Option<Packet> {
    if history == [] then
      if user in base then base[user].record else None
    else
      var last := history[|history| - 1];
      if last.user == user && last.lookup.Storable().Some? && BoundTo(base, history, user).Some?
      then last.lookup.Storable()
      else KeptRecord(base, history[..|history| - 1], user)
  }

  function StaleUsers(graph: map<string, Mapping>): set<string> {
    set user | user in graph && graph[user].stale
  }

  /**
   * What a resolution must say of a step from one graph to another: the state before it, how the
   * lookup went, and whether the user's mapping crossed between active and stale.
   */
  ghost predicate Reports(before: map<string, Mapping>, after: map<string, Mapping>, user: string, lookup: Lookup, r: Resolution) {
    && r.MappingBefore() == StateOf(before, user)
    && Labels(user in before, if user in before then before[user].homeserver else "", user in after, lookup, r)
    && (r.NewlyStale().Some? <==> StateOf(before, user).ActiveState? && StateOf(after, user).StaleState?)
    && (r == Confirmed(true) <==> StateOf(before, user).StaleState? && StateOf(after, user).ActiveState?)
    && (StateOf(after, user).StaleState? ==> user in before)
    && forall u :: u != user ==> StateOf(after, u) == StateOf(before, u)
  }

  /** The lookup named this homeserver. */
  predicate Names(lookup: Lookup, homeserver: string) {
    lookup.Published? && lookup.homeserver == Some(homeserver)
  }

  predicate NamesOne(lookup: Lookup) {
    lookup.Published? && lookup.homeserver.Some?
  }

  /** Which resolution it is and how it counts, from the lookup and the binding before and after. */
  predicate Labels(wasBound: bool, homeserver: string, bound: bool, lookup: Lookup, r: Resolution) {
    && (r.LookupFailed? <==> lookup.Failed?)
    && (r.Unbound? <==> !lookup.Failed? && !wasBound && !bound)
    && (r.Bound? <==> !lookup.Failed? && !wasBound && bound)
    && (r.Confirmed? <==> wasBound && Names(lookup, homeserver))
    && (r.Diverged? && r.reason.Unresolved? <==> wasBound && !lookup.Failed? && !NamesOne(lookup))
    && (r.Diverged? && r.reason.HsChanged? <==> wasBound && NamesOne(lookup) && !Names(lookup, homeserver))
    && (r.Outcome().ErrorOutcome? <==> lookup.Failed?)
    && (r.Outcome().ResolvedOutcome? <==> NamesOne(lookup) && bound)
  }

  /** The mapping a lookup that did not fail must leave, where there was `before`. */
  predicate Leaves(before: Option<Mapping>, lookup: Lookup, after: Option<Mapping>) {
    match before
    case None =>
      && (after.Some? <==> NamesOne(lookup) && lookup.stored.Some?)
      && (after.Some? ==> after == Some(Mapping(lookup.homeserver.value, false, lookup.stored)))
    case Some(m) =>
      && after.Some? && after.value.homeserver == m.homeserver
      && (after.value.stale <==> !Names(lookup, m.homeserver))
      && after.value.record == if lookup.Published? && lookup.stored.Some? then lookup.stored else m.record
  }

  lemma NextLeaves(stored: Option<Mapping>, lookup: Lookup)
    ensures if lookup.Failed? then Next(stored, lookup) == stored else Leaves(stored, lookup, Next(stored, lookup))
  {
  }

  /** The mapping a lookup leaves. */
  function Next(stored: Option<Mapping>, lookup: Lookup): Option<Mapping> {
    if lookup.Failed? then stored
    else
      match stored
      case None => if lookup.Binds() then Some(Mapping(lookup.Named().value, false, lookup.Storable())) else None
      case Some(m) =>
        Some(Mapping(m.homeserver, lookup.Named() != Some(m.homeserver), Coalesce(lookup.Storable(), m.record)))
  }

  /** How the resolution of a lookup is labelled. */
  function Conclude(stored: Option<Mapping>, lookup: Lookup): Resolution {
    if lookup.Failed? then
      LookupFailed(if stored.None? then UnboundState else if stored.value.stale then StaleState else ActiveState)
    else
      match stored
      case None => if lookup.Binds() then Bound else Unbound
      case Some(m) =>
        if lookup.Named() == Some(m.homeserver) then Confirmed(m.stale)
        else Diverged(if lookup.Named().None? then Unresolved else HsChanged, m.stale)
  }

  function Stored(graph: map<string, Mapping>, user: string): Option<Mapping> {
    if user in graph then Some(graph[user]) else None
  }

  function Store(graph: map<string, Mapping>, user: string, mapping: Option<Mapping>): map<string, Mapping> {
    if mapping.Some? then graph[user := mapping.value] else graph
  }

  /** The graph holds exactly what the history means. */
  ghost predicate Meant(base: map<string, Mapping>, history: seq<Event>, graph: map<string, Mapping>) {
    forall user :: Stored(graph, user) ==
      if BoundTo(base, history, user).Some?
      then Some(Mapping(BoundTo(base, history, user).value, HasDiverged(base, history, user), KeptRecord(base, history, user)))
      else None
  }

  lemma StepIsMeant(base: map<string, Mapping>, history: seq<Event>, graph: map<string, Mapping>, user: string, lookup: Lookup)
    requires Meant(base, history, graph)
    ensures Meant(base, history + [Event(user, lookup)], Store(graph, user, Next(Stored(graph, user), lookup)))
  {
  }

  lemma ConclusionReports(graph: map<string, Mapping>, user: string, lookup: Lookup)
    ensures Reports(graph, Store(graph, user, Next(Stored(graph, user), lookup)), user, lookup, Conclude(Stored(graph, user), lookup))
  {
  }

  class Runner {
    const ttl: nat
    const backoff: Backoff.UnboundBackoff
    ghost const base: map<string, Mapping>
    var graph: map<string, Mapping>
    /** The `marked_stale` counter. */
    var markedStale: nat
    /** Confirmations of mappings that were stale. */
    var realigned: nat
    var failed: nat
    var processed: nat
    ghost var history: seq<Event>

    ghost predicate Follows()
      reads this`graph, this`history
    {
      Meant(base, history, graph)
    }

    ghost predicate Valid()
      reads this, backoff
    {
      && Follows() && backoff.Valid() && backoff.ttl == ttl
      && markedStale - realigned == |StaleUsers(graph)| - |StaleUsers(base)|
    }

    constructor (ttl: nat, backoff: Backoff.UnboundBackoff, base: map<string, Mapping>)
      requires backoff.Valid() && backoff.ttl == ttl
      ensures Valid() && this.ttl == ttl && this.backoff == backoff && this.base == base && graph == base
      ensures history == [] && markedStale == 0 && realigned == 0
    {
      this.ttl, this.backoff, this.base, graph := ttl, backoff, base, base;
      markedStale, realigned, failed, processed, history := 0, 0, 0, 0, [];
    }

    /**
     * Resolves one user and stores what follows; an error of the graph leaves it as it was. The
     * mapping afterwards is the one the whole history of lookups means.
     */
    method ResolveUser(user: string, lookup: Lookup, readOk: bool, writeOk: bool) returns (result: Result<Resolution, ()>)
      requires Follows()
      modifies this`graph, this`history
      ensures Follows()
      ensures result.Err? <==> !readOk || (!writeOk && Writes(user in old(graph), lookup))
      ensures result.Ok? ==>
                if lookup.Failed? then graph == old(graph) else Leaves(Stored(old(graph), user), lookup, Stored(graph, user))
      ensures if result.Ok? then history == old(history) + [Event(user, lookup)]
              else history == old(history) && graph == old(graph)
      ensures result.Ok? ==> Reports(old(graph), graph, user, lookup, result.value)
      ensures forall u :: u in old(graph) ==> u in graph && graph[u].homeserver == old(graph)[u].homeserver
    {
      hide Meant, Reports, Conclude, Leaves, Next;
      if !readOk {
        return Err(());
      }
      var stored := Stored(graph, user);
      if !writeOk && Writes(stored.Some?, lookup) {
        return Err(());
      }
      StepIsMeant(base, history, graph, user, lookup);
      ConclusionReports(graph, user, lookup);
      NextLeaves(stored, lookup);
      graph := Store(graph, user, Next(stored, lookup));
      history := history + [Event(user, lookup)];
      return Ok(Conclude(stored, lookup));
    }

    /** One user of a run: resolve, count the transition, and settle the backoff. */
    method ResolveAndCount(user: string, lookup: Lookup, readOk: bool, writeOk: bool, now: int)
      requires Valid()
      modifies this, backoff
      ensures Valid() && processed == old(processed) + 1
      ensures forall u :: u in old(graph) ==> u in graph && graph[u].homeserver == old(graph)[u].homeserver
      // A failure is an error of the graph, or a lookup that does not end with a bound user's homeserver named.
      ensures failed == old(failed)
                + if (readOk && (writeOk || !Writes(user in old(graph), lookup))) && NamesOne(lookup) && user in graph then 0 else 1
      ensures backoff.history == old(backoff.history)
                + if !readOk || (!writeOk && Writes(user in old(graph), lookup)) then []
                  else if lookup.Failed? then [Backoff.LookupFailed(user)]
                  else if user !in graph then [Backoff.Empty(user, now)]
                  else [Backoff.Found(user)]
    {
      hide Follows, StaleUsers, Backoff.UnboundBackoff.Valid;
      ghost var before := graph;
      var result := ResolveUser(user, lookup, readOk, writeOk);
      processed := processed + 1;
      StaleUsersAfter(before, graph, user);
      match result
      case Err(_) => failed := failed + 1;
      case Ok(resolution) =>
        if resolution.Unbound? {
          backoff.RecordUnbound(user, now);
        } else if resolution.LookupFailed? {
          backoff.IgnoreFailure(user);
        } else {
          backoff.Clear(user);
        }
        if resolution.NewlyStale().Some? {
          markedStale := markedStale + 1;
        }
        if resolution == Confirmed(true) {
          realigned := realigned + 1;
        }
        if resolution.Outcome() != ResolvedOutcome {
          failed := failed + 1;
        }
    }
  }

  /** The stale population moves by one exactly when the user's own state crosses over. */
  lemma {:induction false} StaleUsersAfter(before: map<string, Mapping>, after: map<string, Mapping>, user: string)
    requires forall u :: u != user ==> StateOf(after, u) == StateOf(before, u)
    ensures |StaleUsers(after)| - |StaleUsers(before)|
         == (if StateOf(after, user).StaleState? then 1 else 0) - (if StateOf(before, user).StaleState? then 1 else 0)
  {
    OtherStaleUsers(before, after, user);
    StaleIsIn(before, user);
    StaleIsIn(after, user);
    hide StaleUsers, StateOf;
    CountWith(StaleUsers(before), user);
    CountWith(StaleUsers(after), user);
  }

  lemma OtherStaleUsers(before: map<string, Mapping>, after: map<string, Mapping>, user: string)
    requires forall u :: u != user ==> StateOf(after, u) == StateOf(before, u)
    ensures StaleUsers(before) - {user} == StaleUsers(after) - {user}
  {
    forall u | u != user ensures u in StaleUsers(before) <==> u in StaleUsers(after) {
      assert StateOf(after, u) == StateOf(before, u);
    }
  }

  lemma StaleIsIn(graph: map<string, Mapping>, user: string)
    ensures user in StaleUsers(graph) <==> StateOf(graph, user).StaleState?
  {
  }

  lemma CountWith(s: set<string>, user: string)
    ensures |s| == |s - {user}| + if user in s then 1 else 0
  {
    if user in s {
      assert s == s - {user} + {user};
    } else {
      assert s == s - {user};
    }
  }

  /** Once bound, a user stays bound to the same homeserver, whatever is looked up later. */
  lemma {:induction false} BoundForGood(base: map<string, Mapping>, history: seq<Event>, later: seq<Event>)
    ensures forall user :: BoundTo(base, history, user).Some? ==>
              BoundTo(base, history + later, user) == BoundTo(base, history, user)
    decreases |later|
  {
    if later == [] {
      assert history + later == history;
    } else {
      var front := later[..|later| - 1];
      assert (history + later)[..|history + later| - 1] == history + front;
      BoundForGood(base, history, front);
    }
  }
}
