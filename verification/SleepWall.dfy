/** The chunked wall-clock sleep that bounds a run: it re-reads the clock after every chunk. */
module SleepWall {

  /** A backward clock step reads as no elapsed time. */
  function Elapsed(started: int, now: int): nat {
    if now < started then 0 else now - started
  }

  /** What is asked of the timer when the clock reads `now`. */
  function Chunk(started: int, now: int, dur: nat, maxSleep: nat): nat
    requires Elapsed(started, now) < dur
  {
    var remaining := dur - Elapsed(started, now);
    if remaining < maxSleep then remaining else maxSleep
  }

  /** The clock has not moved on by `dur` since `started`; it may have gone back. */
  predicate Early(started: int, now: int, dur: nat) {
    dur > 0 && now - started < dur
  }

  /** A chunk asks for what is left, all of `dur` when the clock went back, up to the longest sleep. */
  predicate Asks(chunk: nat, started: int, now: int, dur: nat, maxSleep: nat) {
    && chunk <= maxSleep && chunk <= dur && chunk + (now - started) <= dur
    && (chunk == maxSleep || chunk == dur || chunk + (now - started) == dur)
    && (chunk == dur && chunk < maxSleep ==> now <= started)
  }

  lemma ChunkAsks(started: int, now: int, dur: nat, maxSleep: nat)
    requires Early(started, now, dur)
    ensures Elapsed(started, now) < dur && Asks(Chunk(started, now, dur, maxSleep), started, now, dur, maxSleep)
  {
  }

  ghost predicate AllEarly(started: int, readings: seq<int>, dur: nat) {
    forall i :: 0 <= i < |readings| ==> Early(started, readings[i], dur)
  }

  /**
   * Sleeps `dur` of wall-clock time against a script of clock readings, the first of which starts
   * it. Whatever the clock does, it returns at the first reading `dur` past the start, asking for
   * one chunk after each reading that is not.
   */
  method SleepWall(readings: seq<int>, dur: nat, maxSleep: nat) returns (done: bool, used: nat, chunks: seq<nat>)
    requires readings != []
    ensures 1 <= used <= |readings|
    ensures if done then 2 <= used && |chunks| == used - 2 && (dur > 0 ==> readings[used - 1] - readings[0] >= dur)
            else used == |readings| && |chunks| == used - 1
    ensures AllEarly(readings[0], readings[1..1 + |chunks|], dur)
    ensures forall i :: 0 <= i < |chunks| ==> Asks(chunks[i], readings[0], readings[1 + i], dur, maxSleep)
  {
    var started := readings[0];
    used, chunks := 1, [];
    while used < |readings|
      invariant 1 <= used <= |readings| && |chunks| == used - 1
      invariant forall i {:trigger readings[1 + i]} {:trigger chunks[i]} :: 0 <= i < |chunks| ==>
        Early(started, readings[1 + i], dur) && Asks(chunks[i], started, readings[1 + i], dur, maxSleep)
    {
      var now := readings[used];
      used := used + 1;
      if dur <= Elapsed(started, now) {
        return true, used, chunks;
      }
      ChunkAsks(started, now, dur, maxSleep);
      chunks := chunks + [Chunk(started, now, dur, maxSleep)];
    }
    done := false;
  }

  /** A clock on which every chunk takes at least what was asked, and at most `lag` more. */
  ghost predicate Honest(readings: seq<int>, chunks: seq<nat>, dur: nat, lag: nat) {
    && |readings| == |chunks| + 2 && readings[0] <= readings[1] <= readings[0] + dur + lag
    && forall i {:trigger chunks[i]} :: 0 <= i < |chunks| ==>
         readings[1 + i] + chunks[i] <= readings[2 + i] <= readings[1 + i] + chunks[i] + lag
  }

  /** On an honest clock a sleep that has returned ended between `dur` and `dur + lag` after it started. */
  lemma {:induction false} EndsWithinLag(readings: seq<int>, chunks: seq<nat>, dur: nat, maxSleep: nat, lag: nat)
    requires Honest(readings, chunks, dur, lag)
    requires forall i :: 0 <= i < |chunks| ==> Asks(chunks[i], readings[0], readings[1 + i], dur, maxSleep)
    requires AllEarly(readings[0], readings[1..1 + |chunks|], dur)
    requires dur > 0 ==> readings[|readings| - 1] - readings[0] >= dur
    ensures dur <= readings[|readings| - 1] - readings[0] <= dur + lag
  {
    if |chunks| > 0 {
      var last := |chunks| - 1;
      assert Early(readings[0], readings[1..1 + |chunks|][last], dur);
      assert Asks(chunks[last], readings[0], readings[1 + last], dur, maxSleep);
    }
  }
}
