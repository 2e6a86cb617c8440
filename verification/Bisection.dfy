/**
 * The order in which user keys are looked up: breadth first over the implicit search tree of the
 * sorted keys, so that every prefix of the order is spread over the whole key space.
 *
 * Keys are the 32 bytes of a public key read as one big-endian number, which compares as the bytes
 * do.
 */
module Bisection {

  /** A half-open interval of positions in the sorted keys. */
  datatype Interval = Interval(lo: nat, hi: nat)
  {
    predicate Empty() { lo >= hi }
    function Size(): nat { if Empty() then 0 else hi - lo }
    function Mid(): nat
      requires !Empty()
    {
      lo + (hi - lo) / 2
    }
    function Children(): seq<Interval>
      requires !Empty()
    {
      [Interval(lo, Mid()), Interval(Mid() + 1, hi)]
    }
    predicate Has(i: nat) { lo <= i < hi }
  }

  /** The queue's termination measure. */
  function Measure(queue: seq<Interval>): nat {
    if queue == [] then 0 else 2 * queue[0].Size() + 1 + Measure(queue[1..])
  }

  lemma {:induction false} MeasureOfAppend(a: seq<Interval>, b: seq<Interval>)
    ensures Measure(a + b) == Measure(a) + Measure(b)
  {
    if a == [] {
      assert a + b == b;
    } else {
      assert (a + b)[1..] == a[1..] + b;
      MeasureOfAppend(a[1..], b);
    }
  }

  lemma {:induction false} MeasureOfSplit(queue: seq<Interval>)
    requires queue != [] && !queue[0].Empty()
    ensures Measure(queue[1..] + queue[0].Children()) < Measure(queue)
  {
    var cs := queue[0].Children();
    MeasureOfAppend(queue[1..], cs);
    assert cs[1..] == [cs[1]] && cs[1..][1..] == [];
    assert Measure(cs) == 2 * cs[0].Size() + 1 + Measure(cs[1..]);
  }

  /** The positions emitted from a queue on. */
  function Order(queue: seq<Interval>): seq<nat>
    decreases Measure(queue)
  {
    if queue == [] then []
    else if queue[0].Empty() then Order(queue[1..])
    else
      MeasureOfSplit(queue);
      [queue[0].Mid()] + Order(queue[1..] + queue[0].Children())
  }

  // ---------------------------------------------------------------------------------------
  // The queue holds disjoint intervals that cover what is yet to be emitted

  function Positions(q: Interval): set<nat> {
    set i: nat | i < q.hi && q.Has(i)
  }

  /** The positions the queued intervals hold, counted with repeats. */
  function Queued(queue: seq<Interval>): multiset<nat> {
    if queue == [] then multiset{} else multiset(Positions(queue[0])) + Queued(queue[1..])
  }

  lemma {:induction false} QueuedOfAppend(a: seq<Interval>, b: seq<Interval>)
    ensures Queued(a + b) == Queued(a) + Queued(b)
  {
    if a == [] {
      assert a + b == b;
    } else {
      assert (a + b)[1..] == a[1..] + b;
      QueuedOfAppend(a[1..], b);
    }
  }

  lemma {:induction false} QueuedPair(a: Interval, b: Interval)
    ensures Queued([a, b]) == multiset(Positions(a)) + multiset(Positions(b))
  {
    assert [a, b][1..] == [b] && [b][1..] == [];
    assert Queued([b]) == multiset(Positions(b)) + Queued([]);
  }

  lemma {:induction false} SplitHoldsTheRest(q: Interval)
    requires !q.Empty()
    ensures multiset(Positions(q)) == multiset{q.Mid()} + Queued(q.Children())
  {
    var left, right := Interval(q.lo, q.Mid()), Interval(q.Mid() + 1, q.hi);
    QueuedPair(left, right);
    SplitPositions(q, left, right);
    hide Positions, Queued;
  }

  lemma {:induction false} SplitPositions(q: Interval, left: Interval, right: Interval)
    requires !q.Empty() && q.Children() == [left, right]
    ensures multiset(Positions(q)) == multiset{q.Mid()} + (multiset(Positions(left)) + multiset(Positions(right)))
  {
    var l, r := Positions(left), Positions(right);
    assert Positions(q) == {q.Mid()} + (l + r);
    DisjointUnion(l, r);
    DisjointUnion({q.Mid()}, l + r);
  }

  lemma DisjointUnion(a: set<nat>, b: set<nat>)
    requires a !! b
    ensures multiset(a + b) == multiset(a) + multiset(b)
  {
  }

  /** Every queued position is emitted exactly as often as it is queued. */
  lemma {:induction false} OrderEmitsQueued(queue: seq<Interval>)
    ensures multiset(Order(queue)) == Queued(queue)
    decreases Measure(queue)
  {
    if queue != [] {
      if queue[0].Empty() {
        assert Positions(queue[0]) == {};
        OrderEmitsQueued(queue[1..]);
      } else {
        MeasureOfSplit(queue);
        QueuedOfAppend(queue[1..], queue[0].Children());
        SplitHoldsTheRest(queue[0]);
        OrderEmitsQueued(queue[1..] + queue[0].Children());
      }
    }
  }

  // ---------------------------------------------------------------------------------------
  // Depth by depth

  function Children(level: seq<Interval>): seq<Interval> {
    if level == [] then []
    else (if level[0].Empty() then [] else level[0].Children()) + Children(level[1..])
  }

  function Mids(level: seq<Interval>): seq<nat> {
    if level == [] then []
    else (if level[0].Empty() then [] else [level[0].Mid()]) + Mids(level[1..])
  }

  /** The intervals at depth `d` of the tree over `n` keys. */
  function Level(n: nat, d: nat): seq<Interval> {
    if d == 0 then if n > 0 then [Interval(0, n)] else [] else Children(Level(n, d - 1))
  }

  /** The positions of all midpoints of depth below `d`, in the order they are emitted. */
  function Above(n: nat, d: nat): seq<nat> {
    if d == 0 then [] else Above(n, d - 1) + Mids(Level(n, d - 1))
  }

  /** The queue works through one level while it collects the next behind it. */
  lemma {:induction false} LevelThenChildren(level: seq<Interval>, next: seq<Interval>)
    ensures Order(level + next) == Mids(level) + Order(next + Children(level))
    decreases |level|
  {
    if level == [] {
      assert level + next == next && next + Children(level) == next;
    } else if level[0].Empty() {
      OrderOfFirst(level, next);
      LevelThenChildren(level[1..], next);
      MidsOfFirst(level);
      ChildrenOfFirst(level, next);
    } else {
      var rest, mid, queue := level[1..], [level[0].Mid()], next + level[0].Children();
      calc {
        Order(level + next);
        { OrderOfFirst(level, next); }
        mid + Order(rest + queue);
        { LevelThenChildren(rest, queue); }
        mid + (Mids(rest) + Order(queue + Children(rest)));
        { Assoc(mid, Mids(rest), Order(queue + Children(rest))); }
        mid + Mids(rest) + Order(queue + Children(rest));
        { MidsOfFirst(level); ChildrenOfFirst(level, next); }
        Mids(level) + Order(next + Children(level));
      }
    }
  }

  lemma {:induction false} ChildrenOfFirst(level: seq<Interval>, next: seq<Interval>)
    requires level != []
    ensures next + Children(level)
         == if level[0].Empty() then next + Children(level[1..]) else next + level[0].Children() + Children(level[1..])
  {
    if level[0].Empty() {
      assert Children(level) == Children(level[1..]);
    } else {
      assert Children(level) == level[0].Children() + Children(level[1..]);
    }
  }

  lemma {:induction false} MidsOfFirst(level: seq<Interval>)
    requires level != []
    ensures Mids(level) == if level[0].Empty() then Mids(level[1..]) else [level[0].Mid()] + Mids(level[1..])
  {
  }

  lemma Assoc(a: seq<nat>, b: seq<nat>, c: seq<nat>)
    ensures a + (b + c) == a + b + c
  {
  }

  lemma {:induction false} OrderOfFirst(level: seq<Interval>, next: seq<Interval>)
    requires level != []
    ensures Order(level + next) ==
              if level[0].Empty() then Order(level[1..] + next)
              else [level[0].Mid()] + Order(level[1..] + (next + level[0].Children()))
  {
    assert (level + next)[1..] == level[1..] + next;
    if !level[0].Empty() {
      assert level[1..] + next + level[0].Children() == level[1..] + (next + level[0].Children());
    }
  }

  /** The order begins with every midpoint of depth below `d`. */
  lemma {:induction false} OrderByDepth(n: nat, d: nat)
    ensures Order(Level(n, 0)) == Above(n, d) + Order(Level(n, d))
  {
    if d > 0 {
      OrderByDepth(n, d - 1);
      var level := Level(n, d - 1);
      LevelThenChildren(level, []);
      assert level + [] == level && [] + Children(level) == Children(level);
    }
  }

  /** The intervals of a level from `lo` on are apart and run from left to right. */
  predicate LeftToRight(level: seq<Interval>, lo: nat) {
    level == []
    || (lo <= level[0].lo <= level[0].hi && LeftToRight(level[1..], level[0].hi + 1))
  }

  predicate Rising(mids: seq<nat>, lo: nat) {
    mids == [] || (lo <= mids[0] && Rising(mids[1..], mids[0] + 1))
  }

  lemma TwoLeftToRight(a: Interval, b: Interval, rest: seq<Interval>, lo: nat)
    requires lo <= a.lo <= a.hi < b.lo <= b.hi && LeftToRight(rest, b.hi + 1)
    ensures LeftToRight([a, b] + rest, lo)
  {
  }

  lemma Widen(level: seq<Interval>, lo: nat, less: nat)
    requires LeftToRight(level, lo) && less <= lo
    ensures LeftToRight(level, less)
  {
  }

  lemma {:induction false} ChildrenLeftToRight(level: seq<Interval>, lo: nat)
    requires LeftToRight(level, lo)
    ensures LeftToRight(Children(level), lo)
    decreases |level|
  {
    if level != [] {
      var first, rest := level[0], level[1..];
      ChildrenLeftToRight(rest, first.hi + 1);
      if first.Empty() {
        Widen(Children(rest), first.hi + 1, lo);
        assert Children(level) == Children(rest);
      } else {
        TwoLeftToRight(first.Children()[0], first.Children()[1], Children(rest), lo);
      }
    }
  }

  lemma WidenRising(mids: seq<nat>, lo: nat, less: nat)
    requires Rising(mids, lo) && less <= lo
    ensures Rising(mids, less)
  {
  }

  lemma {:induction false} MidsRise(level: seq<Interval>, lo: nat)
    requires LeftToRight(level, lo)
    ensures Rising(Mids(level), lo)
    decreases |level|
  {
    if level != [] {
      var first, rest := level[0], level[1..];
      MidsRise(rest, first.hi + 1);
      WidenRising(Mids(rest), first.hi + 1, lo);
      if !first.Empty() {
        WidenRising(Mids(rest), first.hi + 1, first.Mid() + 1);
        assert Mids(level)[1..] == Mids(rest);
      } else {
        assert Mids(level) == Mids(rest);
      }
    }
  }

  /** Within one depth the midpoints are emitted from left to right. */
  lemma {:induction false} DepthLeftToRight(n: nat, d: nat)
    ensures LeftToRight(Level(n, d), 0) && Rising(Mids(Level(n, d)), 0)
  {
    if d > 0 {
      DepthLeftToRight(n, d - 1);
      ChildrenLeftToRight(Level(n, d - 1), 0);
    }
    MidsRise(Level(n, d), 0);
  }

  /** The left half is never the smaller one, and larger by one position at most. */
  lemma LeftHalfFirst(q: Interval)
    requires !q.Empty()
    ensures q.lo <= q.Mid() < q.hi && q.Children() == [Interval(q.lo, q.Mid()), Interval(q.Mid() + 1, q.hi)]
    ensures q.Children()[1].Size() <= q.Children()[0].Size() <= q.Children()[1].Size() + 1
    ensures q.Children()[0].Size() + 1 + q.Children()[1].Size() == q.Size()
  {
  }

  function Pow2(d: nat): (p: nat)
    ensures p > 0
  {
    if d == 0 then 1 else 2 * Pow2(d - 1)
  }

  /** Between two emitted positions, or an end of the keys, and itself untouched. */
  ghost predicate Bounded(n: nat, emitted: seq<nat>, q: Interval) {
    && q.lo <= q.hi <= n
    && (q.lo == 0 || q.lo - 1 in emitted)
    && (q.hi == n || q.hi in emitted)
  }

  lemma {:induction false} ChildrenBounded(n: nat, emitted: seq<nat>, level: seq<Interval>, size: nat)
    requires forall q :: q in level ==> Bounded(n, emitted, q) && q.Size() <= size
    ensures forall q :: q in Children(level) ==> Bounded(n, emitted + Mids(level), q) && q.Size() <= size / 2
    decreases |level|
  {
    if level != [] {
      ChildrenBounded(n, emitted, level[1..], size);
      MidsOfFirst(level);
      ChildOfFirst(level);
      hide Mids, Children;
      forall q | q in Children(level)
        ensures Bounded(n, emitted + Mids(level), q) && q.Size() <= size / 2
      {
        if q in Children(level[1..]) {
          BoundedByMore(n, emitted + Mids(level[1..]), emitted + Mids(level), q);
        } else {
          assert level[0] in level && q in level[0].Children();
          assert level[0].Mid() in Mids(level);
          BoundedByMore(n, emitted, emitted + Mids(level), level[0]);
        }
      }
    }
  }

  lemma {:induction false} ChildOfFirst(level: seq<Interval>)
    requires level != []
    ensures forall q :: q in Children(level) ==>
              q in Children(level[1..]) || (!level[0].Empty() && q in level[0].Children())
  {
  }

  lemma BoundedByMore(n: nat, less: seq<nat>, more: seq<nat>, q: Interval)
    requires Bounded(n, less, q) && forall i :: i in less ==> i in more
    ensures Bounded(n, more, q)
  {
  }

  ghost predicate Holds(level: seq<Interval>, i: nat) {
    exists q :: q in level && q.Has(i)
  }

  /** A position that has not been emitted lies in an interval of the level. */
  lemma {:induction false} ChildrenCover(level: seq<Interval>, i: nat)
    requires Holds(level, i)
    ensures i in Mids(level) || Holds(Children(level), i)
    decreases |level|
  {
    var q :| q in level && q.Has(i);
    if q == level[0] {
      if i != q.Mid() {
        var c := if i < q.Mid() then q.Children()[0] else q.Children()[1];
        assert c in Children(level) && c.Has(i);
      }
    } else {
      assert q in level[1..];
      ChildrenCover(level[1..], i);
      if i !in Mids(level[1..]) {
        var c :| c in Children(level[1..]) && c.Has(i);
        assert c in Children(level);
      }
    }
  }

  /** `n` halved `d` times, rounding down each time. */
  function Halved(n: nat, d: nat): nat {
    if d == 0 then n else Halved(n, d - 1) / 2
  }

  lemma MulMonotone(m: nat, a: int, b: int)
    ensures a <= b ==> m * a <= m * b
  {
  }

  lemma {:induction false} QuotientIs(n: nat, m: nat, q: nat)
    requires m > 0 && m * q <= n < m * (q + 1)
    ensures n / m == q
  {
    QuotientBounds(n, m);
    MulMonotone(m, n / m + 1, q);
    MulMonotone(m, q + 1, n / m);
  }

  lemma QuotientBounds(n: nat, m: nat)
    requires m > 0
    ensures m * (n / m) <= n < m * (n / m + 1)
  {
  }

  lemma {:induction false} HalveBounds(n: nat, p: nat, q: nat)
    requires p * q <= n < p * (q + 1)
    ensures 2 * p * (q / 2) <= n < 2 * p * (q / 2 + 1)
  {
    var h := q / 2;
    MulMonotone(p, 2 * h, q);
    MulMonotone(p, q + 1, 2 * (h + 1));
    assert p * (2 * h) == 2 * p * h;
    assert p * (2 * (h + 1)) == 2 * p * (h + 1);
  }

  lemma {:induction false} HalveQuotient(n: nat, p: nat, q: nat, m: nat)
    requires p > 0 && p * q <= n < p * (q + 1) && m == 2 * p
    ensures q / 2 == n / m
  {
    HalveBounds(n, p, q);
    QuotientIs(n, m, q / 2);
  }

  /** Halving repeatedly is one division by a power of two. */
  lemma {:induction false} HalvedIsQuotient(n: nat, d: nat)
    ensures Halved(n, d) == n / Pow2(d)
  {
    if d > 0 {
      HalvedIsQuotient(n, d - 1);
      QuotientBounds(n, Pow2(d - 1));
      HalveQuotient(n, Pow2(d - 1), Halved(n, d - 1), Pow2(d));
    }
  }

  lemma {:induction false} LevelBounded(n: nat, d: nat)
    ensures forall q :: q in Level(n, d) ==> Bounded(n, Above(n, d), q) && q.Size() <= Halved(n, d)
  {
    if d > 0 {
      LevelBounded(n, d - 1);
      ChildrenBounded(n, Above(n, d - 1), Level(n, d - 1), Halved(n, d - 1));
    }
  }

  lemma {:induction false} LevelCovers(n: nat, d: nat, i: nat)
    requires i < n && i !in Above(n, d)
    ensures Holds(Level(n, d), i)
  {
    if d == 0 {
      assert Interval(0, n) in Level(n, d) && Interval(0, n).Has(i);
    } else {
      LevelCovers(n, d - 1, i);
      ChildrenCover(Level(n, d - 1), i);
    }
  }

  /** No run of positions from `lo` up to `hi` has been emitted yet. */
  ghost predicate Gap(n: nat, emitted: seq<nat>, lo: nat, hi: nat) {
    lo <= hi <= n && forall i :: lo <= i < hi ==> i !in emitted
  }

  lemma {:induction false} GapsHalved(n: nat, d: nat, lo: nat, hi: nat)
    requires Gap(n, Above(n, d), lo, hi)
    ensures hi - lo <= Halved(n, d)
  {
    if lo < hi {
      LevelBounded(n, d);
      LevelCovers(n, d, lo);
      var q :| q in Level(n, d) && q.Has(lo);
      assert Bounded(n, Above(n, d), q);
    }
  }

  /** Once every midpoint of depth below `d` is out, no gap is longer than n / 2^d. */
  lemma {:induction false} GapsHalve(n: nat, d: nat, lo: nat, hi: nat)
    requires Gap(n, Above(n, d), lo, hi)
    ensures hi - lo <= n / Pow2(d)
  {
    GapsHalved(n, d, lo, hi);
    HalvedIsQuotient(n, d);
  }

  lemma {:induction false} LevelSize(n: nat, d: nat)
    ensures |Level(n, d)| <= Pow2(d) && |Above(n, d)| <= Pow2(d) - 1
  {
    if d > 0 {
      LevelSize(n, d - 1);
      ChildrenSize(Level(n, d - 1));
    }
  }

  lemma {:induction false} ChildrenSize(level: seq<Interval>)
    ensures |Children(level)| <= 2 * |level| && |Mids(level)| <= |level|
  {
    if level != [] {
      ChildrenSize(level[1..]);
    }
  }

  lemma {:induction false} LongerPrefixSmallerGaps(n: nat, above: seq<nat>, rest: seq<nat>, k: nat, lo: nat, hi: nat)
    requires |above| <= k <= |above + rest| && Gap(n, (above + rest)[..k], lo, hi)
    ensures Gap(n, above, lo, hi)
  {
    var prefix := (above + rest)[..k];
    assert prefix[..|above|] == above;
    assert forall i :: i in above ==> i in prefix;
  }

  /** After 2^d - 1 lookups or more, no run of keys without a lookup is longer than n / 2^d. */
  lemma {:induction false} PrefixIsSpread(n: nat, d: nat, k: nat, lo: nat, hi: nat)
    requires Pow2(d) - 1 <= k <= |Order(Level(n, 0))|
    requires Gap(n, Order(Level(n, 0))[..k], lo, hi)
    ensures hi - lo <= n / Pow2(d)
  {
    LevelSize(n, d);
    OrderByDepth(n, d);
    LongerPrefixSmallerGaps(n, Above(n, d), Order(Level(n, d)), k, lo, hi);
    GapsHalve(n, d, lo, hi);
  }

  // ---------------------------------------------------------------------------------------
  // The loop

  predicate Ascending(keys: seq<int>) {
    forall i, j :: 0 <= i < j < |keys| ==> keys[i] <= keys[j]
  }

  function Insert(key: int, sorted: seq<int>): seq<int> {
    if sorted == [] || key <= sorted[0] then [key] + sorted else [sorted[0]] + Insert(key, sorted[1..])
  }

  function Sort(keys: seq<int>): seq<int> {
    if keys == [] then [] else Insert(keys[0], Sort(keys[1..]))
  }

  lemma AscendingCons(first: int, rest: seq<int>)
    requires Ascending(rest) && (rest == [] || first <= rest[0])
    ensures Ascending([first] + rest)
  {
  }

  lemma {:induction false} InsertSorts(key: int, sorted: seq<int>)
    requires Ascending(sorted)
    ensures Ascending(Insert(key, sorted))
    ensures multiset(Insert(key, sorted)) == multiset(sorted) + multiset([key])
  {
    if sorted == [] || key <= sorted[0] {
      AscendingCons(key, sorted);
    } else {
      InsertSorts(key, sorted[1..]);
      AscendingCons(sorted[0], Insert(key, sorted[1..]));
      assert sorted == [sorted[0]] + sorted[1..];
    }
  }

  lemma {:induction false} SortSorts(keys: seq<int>)
    ensures Ascending(Sort(keys)) && multiset(Sort(keys)) == multiset(keys)
    ensures |Sort(keys)| == |keys|
  {
    if keys != [] {
      assert keys == [keys[0]] + keys[1..];
      SortSorts(keys[1..]);
      InsertSorts(keys[0], Sort(keys[1..]));
      assert |multiset(Sort(keys))| == |multiset(keys)|;
    }
  }

  /** The keys at the given positions, in that order. */
  function Picks(keys: seq<int>, order: seq<nat>): seq<int>
    requires forall i :: i in order ==> i < |keys|
  {
    seq(|order|, i requires 0 <= i < |order| => assert order[i] in order; keys[order[i]])
  }

  function Without(order: seq<nat>, k: nat): seq<nat>
    requires k < |order|
  {
    order[..k] + order[k + 1..]
  }

  lemma {:induction false} WithoutLast(order: seq<nat>, top: nat) returns (k: nat)
    requires multiset(order) == multiset(Positions(Interval(0, top + 1)))
    ensures k < |order| && order[k] == top
    ensures multiset(Without(order, k)) == multiset(Positions(Interval(0, top)))
  {
    assert Positions(Interval(0, top + 1)) == Positions(Interval(0, top)) + {top};
    assert top in multiset(order);
    k :| 0 <= k < |order| && order[k] == top;
    assert order == order[..k] + [top] + order[k + 1..];
    assert multiset(order) == multiset(Without(order, k)) + multiset([top]);
    assert multiset(Without(order, k)) == multiset(order) - multiset([top]);
  }

  lemma {:induction false} PicksAround(keys: seq<int>, order: seq<nat>, k: nat)
    requires keys != [] && k < |order| && order[k] == |keys| - 1
    requires forall i :: i in order ==> i < |keys|
    requires forall i :: i in Without(order, k) ==> i < |keys| - 1
    ensures var picks := Picks(keys, order);
            && |picks| == |order| && picks[k] == keys[|keys| - 1]
            && Picks(keys[..|keys| - 1], Without(order, k)) == picks[..k] + picks[k + 1..]
  {
    var picks, fewer := Picks(keys, order), Without(order, k);
    assert forall i :: 0 <= i < |fewer| ==> fewer[i] in fewer && fewer[i] == order[if i < k then i else i + 1];
    assert picks[..k] + picks[k + 1..] == Picks(keys[..|keys| - 1], fewer);
  }

  lemma {:induction false} PicksWithout(keys: seq<int>, order: seq<nat>, k: nat)
    requires keys != [] && k < |order| && order[k] == |keys| - 1
    requires forall i :: i in order ==> i < |keys|
    requires forall i :: i in Without(order, k) ==> i < |keys| - 1
    ensures multiset(Picks(keys, order))
         == multiset(Picks(keys[..|keys| - 1], Without(order, k))) + multiset([keys[|keys| - 1]])
  {
    var picks, fewer := Picks(keys, order), Without(order, k);
    PicksAround(keys, order, k);
    hide Picks, Without;
    assert picks == picks[..k] + [keys[|keys| - 1]] + picks[k + 1..];
  }

  /** Picking every position once permutes the keys. */
  lemma {:induction false} PicksPermute(keys: seq<int>, order: seq<nat>)
    requires multiset(order) == multiset(Positions(Interval(0, |keys|)))
    requires forall i :: i in order ==> i < |keys|
    ensures multiset(Picks(keys, order)) == multiset(keys)
    decreases |keys|
  {
    if keys == [] {
      assert Positions(Interval(0, 0)) == {};
      assert |order| == |multiset(order)| == 0;
    } else {
      var top := |keys| - 1;
      var k := WithoutLast(order, top);
      var fewer := Without(order, k);
      forall i | i in fewer ensures i < top {
        assert i in multiset(fewer);
      }
      PicksPermute(keys[..top], fewer);
      PicksWithout(keys, order, k);
      assert keys == keys[..top] + [keys[top]];
    }
  }

  /** The walk over `n` keys emits every position once. */
  lemma {:induction false} WalkIsWhole(n: nat)
    ensures multiset(Order(Level(n, 0))) == multiset(Positions(Interval(0, n)))
    ensures forall i :: i in Order(Level(n, 0)) ==> i < n
  {
    var start := Level(n, 0);
    OrderEmitsQueued(start);
    if n > 0 {
      assert start[1..] == [];
    } else {
      assert Positions(Interval(0, n)) == {};
    }
    forall i | i in Order(start) ensures i < n {
      assert i in multiset(Order(start));
    }
  }

  /**
   * The lookup order of a list of keys: a permutation of it, taken from the sorted keys in the
   * order of the breadth-first walk (whose prefixes `PrefixIsSpread` shows to be spread).
   */
  method BisectionOrder(unsorted: seq<int>) returns (result: seq<int>)
    ensures multiset(result) == multiset(unsorted)
    ensures |Sort(unsorted)| == |unsorted| && Ascending(Sort(unsorted))
    ensures forall i :: i in Order(Level(|unsorted|, 0)) ==> i < |unsorted|
    ensures result == Picks(Sort(unsorted), Order(Level(|unsorted|, 0)))
  {
    var sorted := Sort(unsorted);
    SortSorts(unsorted);
    WalkIsWhole(|unsorted|);
    result := Walk(sorted);
    PicksPermute(sorted, Order(Level(|unsorted|, 0)));
  }

  /** One turn of the loop emits the next position of the order. */
  lemma OneTurn(emitted: seq<nat>, queue: seq<Interval>, order: seq<nat>)
    requires queue != [] && emitted + Order(queue) == order
    ensures if queue[0].Empty() then emitted + Order(queue[1..]) == order
            else emitted + [queue[0].Mid()] + Order(queue[1..] + queue[0].Children()) == order && queue[0].Mid() in order
  {
  }

  /** The loop starts from the whole interval and ends with nothing queued. */
  lemma WalkStarts(n: nat)
    ensures Level(n, 0) == (if n > 0 then [Interval(0, n)] else []) && Order([]) == []
  {
  }

  /** The queue loop over keys already sorted. */
  method Walk(sorted: seq<int>) returns (result: seq<int>)
    ensures forall i :: i in Order(Level(|sorted|, 0)) ==> i < |sorted|
    ensures result == Picks(sorted, Order(Level(|sorted|, 0)))
  {
    hide Order, Level, Queued, Positions;
    var n := |sorted|;
    WalkIsWhole(n);
    WalkStarts(n);
    result := [];
    var queue := [];
    if n > 0 {
      queue := [Interval(0, n)];
    }
    ghost var emitted: seq<nat>, order := [], Order(Level(n, 0));
    while queue != []
      invariant emitted + Order(queue) == order
      invariant |result| == |emitted|
      invariant forall i :: 0 <= i < |emitted| ==> emitted[i] < n && result[i] == sorted[emitted[i]]
      decreases Measure(queue)
    {
      OneTurn(emitted, queue, order);
      ghost var before := queue;
      var q := queue[0];
      queue := queue[1..];
      if q.lo >= q.hi {
        continue;
      }
      MeasureOfSplit(before);
      var mid := q.lo + (q.hi - q.lo) / 2;
      result := result + [sorted[mid]];
      queue := queue + [Interval(q.lo, mid)] + [Interval(mid + 1, q.hi)];
      assert queue == before[1..] + q.Children();
      emitted := emitted + [mid];
    }
    assert emitted == order;
  }
}
