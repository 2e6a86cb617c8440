/**
 * The backoff of users whose lookup found nothing published, over any history of resolver ticks.
 * Times and waits are in milliseconds of the monotonic clock.
 */
module Backoff {

  const UNBOUND_RETRY_INITIAL: nat := 60_000

  datatype Entry = Entry(nextAttempt: int, wait: nat)

  /** What happens to the backoff: a tick listing users, or the outcome of one lookup. */
  datatype Event =
    | Listed(users: seq<string>)
    | Empty(user: string, at: int)
    | Found(user: string)
    | LookupFailed(user: string)

  function Min(a: nat, b: nat): nat { if a < b then a else b }

  function Doubled(times: nat): (d: nat)
    ensures d >= UNBOUND_RETRY_INITIAL
  {
    if times == 0 then UNBOUND_RETRY_INITIAL else 2 * Doubled(times - 1)
  }

  /** Empty lookups in a row: a found homeserver or a tick without the user starts over. */
  function Misses(history: seq<Event>, user: string): nat {
    if history == [] then 0
    else
      var before := Misses(history[..|history| - 1], user);
      match history[|history| - 1]
      case Listed(users) => if user in users then before else 0
      case Empty(u, _) => if u == user then before + 1 else before
      case Found(u) => if u == user then 0 else before
      case LookupFailed(_) => before
  }

  /** What one more event does to the count: found or unlisted starts over, empty adds one, failed says nothing. */
  lemma MissesAfter(history: seq<Event>, user: string, other: string, users: seq<string>, at: int)
    requires other != user
    ensures Misses(history + [Found(user)], user) == 0
    ensures user !in users ==> Misses(history + [Listed(users)], user) == 0
    ensures user in users ==> Misses(history + [Listed(users)], user) == Misses(history, user)
    ensures Misses(history + [Empty(user, at)], user) == Misses(history, user) + 1
    ensures LastMiss(history + [Empty(user, at)], user) == at
    ensures Misses(history + [LookupFailed(user)], user) == Misses(history, user)
    ensures Misses(history + [Found(other)], user) == Misses(history + [Empty(other, at)], user) == Misses(history, user)
  {
    assert (history + [Found(user)])[..|history|] == history;
    assert (history + [Listed(users)])[..|history|] == history;
    assert (history + [Empty(user, at)])[..|history|] == history;
    assert (history + [LookupFailed(user)])[..|history|] == history;
    assert (history + [Found(other)])[..|history|] == history;
    assert (history + [Empty(other, at)])[..|history|] == history;
  }

  /** When the last empty lookup of the user was recorded. */
  function LastMiss(history: seq<Event>, user: string): int
    requires Misses(history, user) > 0
  {
    var last := history[|history| - 1];
    if last.Empty? && last.user == user then last.at else LastMiss(history[..|history| - 1], user)
  }

  /** The wait after `misses` empty lookups: the first minute doubled each time, up to the TTL. */
  function WaitAfter(misses: nat, ttl: nat): nat
    requires misses > 0
  {
    Min(Doubled(misses - 1), ttl)
  }

  lemma WaitDoubles(misses: nat, ttl: nat)
    requires misses > 0
    ensures WaitAfter(misses + 1, ttl) == Min(2 * WaitAfter(misses, ttl), ttl)
  {
  }

  /** A user is due when it has no miss to wait out, or its wait is over. */
  predicate Due(history: seq<Event>, user: string, now: int, ttl: nat) {
    Misses(history, user) > 0 ==> LastMiss(history, user) + WaitAfter(Misses(history, user), ttl) <= now
  }

  function DueOf(history: seq<Event>, users: seq<string>, now: int, ttl: nat): seq<string> {
    if users == [] then []
    else (if Due(history, users[0], now, ttl) then [users[0]] else []) + DueOf(history, users[1..], now, ttl)
  }

  lemma {:induction false} DueOfAppend(history: seq<Event>, users: seq<string>, user: string, now: int, ttl: nat)
    ensures DueOf(history, users + [user], now, ttl)
         == DueOf(history, users, now, ttl) + if Due(history, user, now, ttl) then [user] else []
  {
    if users != [] {
      assert (users + [user])[1..] == users[1..] + [user];
      DueOfAppend(history, users[1..], user, now, ttl);
    }
  }

  class UnboundBackoff {
    const ttl: nat
    var entries: map<string, Entry>
    ghost var history: seq<Event>

    /** The map holds exactly the users with misses to wait out, each with its due wait. */
    ghost predicate Valid()
      reads this
    {
      && (forall user :: user in entries <==> Misses(history, user) > 0)
      && (forall user :: user in entries ==>
            && entries[user].wait == WaitAfter(Misses(history, user), ttl)
            && entries[user].nextAttempt == LastMiss(history, user) + entries[user].wait)
    }

    constructor (ttl: nat)
      ensures Valid() && this.ttl == ttl && history == []
    {
      this.ttl, entries, history := ttl, map[], [];
    }

    /**
     * Keeps the listed users whose next lookup is due, in their order, and forgets the entries of
     * users no longer listed.
     */
    method RetainDue(users: seq<string>, now: int) returns (due: seq<string>)
      requires Valid()
      modifies this
      ensures Valid() && history == old(history) + [Listed(users)]
      ensures due == DueOf(history, users, now, ttl)
      ensures forall user :: user in entries ==> user in users
    {
      Forget(users);
      due := Select(users, now);
    }

    method Forget(users: seq<string>)
      requires Valid()
      modifies this
      ensures Valid() && history == old(history) + [Listed(users)]
      ensures forall user :: user in entries ==> user in users
    {
      history := history + [Listed(users)];
      assert history[..|history| - 1] == old(history);
      entries := map user | user in entries && user in users :: entries[user];
    }

    method Select(users: seq<string>, now: int) returns (due: seq<string>)
      requires Valid()
      ensures due == DueOf(history, users, now, ttl)
    {
      due := [];
      for i := 0 to |users|
        invariant due == DueOf(history, users[..i], now, ttl)
      {
        if users[i] !in entries || entries[users[i]].nextAttempt <= now {
          due := due + [users[i]];
        }
        DueOfAppend(history, users[..i], users[i], now, ttl);
        assert users[..i + 1] == users[..i] + [users[i]];
      }
      assert users[..|users|] == users;
    }

    /** Records an empty lookup: the wait doubles, starting at a minute and capped at the TTL. */
    method RecordUnbound(user: string, now: int)
      requires Valid()
      modifies this
      ensures Valid() && history == old(history) + [Empty(user, now)]
    {
      history := history + [Empty(user, now)];
      assert history[..|history| - 1] == old(history);
      var wait := Min(if user in entries then 2 * entries[user].wait else UNBOUND_RETRY_INITIAL, ttl);
      if user in entries {
        WaitDoubles(Misses(old(history), user), ttl);
      }
      entries := entries[user := Entry(now + wait, wait)];
    }

    method Clear(user: string)
      requires Valid()
      modifies this
      ensures Valid() && history == old(history) + [Found(user)]
      ensures entries == old(entries) - {user}
    {
      history := history + [Found(user)];
      assert history[..|history| - 1] == old(history);
      entries := map u | u in entries && u != user :: entries[u];
    }

    /** A failed lookup says nothing about the user and leaves the backoff alone. */
    method IgnoreFailure(user: string)
      requires Valid()
      modifies this`history
      ensures Valid() && history == old(history) + [LookupFailed(user)]
    {
      history := history + [LookupFailed(user)];
      assert history[..|history| - 1] == old(history);
    }
  }

  /** Nothing in the events names the user's miss again: no new miss, no reset, always listed. */
  ghost predicate Undisturbed(events: seq<Event>, user: string) {
    forall i :: 0 <= i < |events| ==>
      match events[i]
      case Listed(users) => user in users
      case Empty(u, _) => u != user
      case Found(u) => u != user
      case LookupFailed(_) => true
  }

  lemma {:induction false} UndisturbedKeeps(history: seq<Event>, user: string, events: seq<Event>)
    requires Misses(history, user) > 0 && Undisturbed(events, user)
    ensures Misses(history + events, user) == Misses(history, user)
    ensures LastMiss(history + events, user) == LastMiss(history, user)
    decreases |events|
  {
    if events == [] {
      assert history + events == history;
    } else {
      var front := events[..|events| - 1];
      assert (history + events)[..|history + events| - 1] == history + front;
      assert (history + events)[|history + events| - 1] == events[|events| - 1];
      UndisturbedKeeps(history, user, front);
    }
  }

  /**
   * After an empty lookup at `at`, and for as long as the user stays listed, no tick selects it
   * before its wait is over, and every tick from then on does.
   */
  lemma {:induction false} WaitsOut(history: seq<Event>, user: string, at: int, events: seq<Event>, users: seq<string>, now: int, ttl: nat)
    requires Undisturbed(events, user) && user in users
    ensures user in DueOf(history + [Empty(user, at)] + events, users, now, ttl)
       <==> at + WaitAfter(Misses(history, user) + 1, ttl) <= now
  {
    var missed := history + [Empty(user, at)];
    assert missed[..|missed| - 1] == history;
    UndisturbedKeeps(missed, user, events);
    SelectedIffDue(missed + events, users, user, now, ttl);
  }

  lemma {:induction false} SelectedIffDue(history: seq<Event>, users: seq<string>, user: string, now: int, ttl: nat)
    ensures user in DueOf(history, users, now, ttl) <==> user in users && Due(history, user, now, ttl)
  {
    if users != [] {
      SelectedIffDue(history, users[1..], user, now, ttl);
    }
  }

  function Pow2(k: nat): nat { if k == 0 then 1 else 2 * Pow2(k - 1) }

  /** `k` misses in a row wait min(60 s * 2^(k-1), ttl). */
  lemma {:induction false} WaitIsPower(k: nat, ttl: nat)
    requires k > 0
    ensures WaitAfter(k, ttl) == Min(UNBOUND_RETRY_INITIAL * Pow2(k - 1), ttl)
  {
    DoubledIsPower(k - 1);
  }

  lemma {:induction false} DoubledIsPower(times: nat)
    ensures Doubled(times) == UNBOUND_RETRY_INITIAL * Pow2(times)
  {
    if times > 0 {
      DoubledIsPower(times - 1);
    }
  }
}
