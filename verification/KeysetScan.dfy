/**
 * Keyset-paged scans: the shared driver, and the reindex pages it drives over a table some of whose
 * rows cannot be read.
 */
module KeysetScan {
  import opened Wrappers
  import opened Ordering

  /** What one step reports: the rows fetched, the cursor to go on from, the records handled. */
  datatype Page<K> = Page(count: nat, last: Option<K>, handled: seq<K>)

  /** The `i`-th step, started after a cursor. */
  type Step<!K> = (nat, K) -> Result<Page<K>, ()>

  datatype Outcome = Finished | NoCursor | NotAdvanced | StepFailed

  /** Cursors that advance run out: each one lowers `rank`. */
  ghost predicate Advancing<K(!new)>(step: Step<K>, lt: (K, K) -> bool, rank: K -> nat) {
    forall i, c {:trigger step(i, c)} ::
      step(i, c).Ok? && step(i, c).value.last.Some? && lt(c, step(i, c).value.last.value)
      ==> rank(step(i, c).value.last.value) < rank(c)
  }

  /** How a scan from `cursor` on ends, and what it handles on the way. */
  ghost function Drive<K(!new)>(step: Step<K>, lt: (K, K) -> bool, rank: K -> nat, batch: nat, i: nat, cursor: K): (Outcome, seq<K>)
    requires Advancing(step, lt, rank)
    decreases rank(cursor)
  {
    match step(i, cursor)
    case Err(_) => (StepFailed, [])
    case Ok(Page(count, last, handled)) =>
      if count == 0 || count < batch then (Finished, handled)
      else if last.None? then (NoCursor, handled)
      else if !lt(cursor, last.value) then (NotAdvanced, handled)
      else
        var rest := Drive(step, lt, rank, batch, i + 1, last.value);
        (rest.0, handled + rest.1)
  }

  /** The driver's loop. A cursor at or below the one given is an error, not the end of the scan. */
  method Scan<K(!new)>(step: Step<K>, lt: (K, K) -> bool, ghost rank: K -> nat, least: K, batch: nat)
    returns (outcome: Outcome, handled: seq<K>)
    requires Advancing(step, lt, rank)
    ensures (outcome, handled) == Drive(step, lt, rank, batch, 0, least)
  {
    var cursor, i := least, 0;
    handled := [];
    ghost var (ending, all) := Drive(step, lt, rank, batch, 0, least);
    assert [] + all == all;
    while true
      invariant Drive(step, lt, rank, batch, 0, least)
             == (Drive(step, lt, rank, batch, i, cursor).0, handled + Drive(step, lt, rank, batch, i, cursor).1)
      decreases rank(cursor)
    {
      var reply := step(i, cursor);
      if reply.Err? {
        assert handled + [] == handled;
        return StepFailed, handled;
      }
      ghost var before := handled;
      handled := handled + reply.value.handled;
      if reply.value.count == 0 || reply.value.count < batch {
        return Finished, handled;
      }
      if reply.value.last.None? {
        return NoCursor, handled;
      }
      var next := reply.value.last.value;
      if !lt(cursor, next) {
        return NotAdvanced, handled;
      }
      ghost var rest := Drive(step, lt, rank, batch, i + 1, next).1;
      assert before + (reply.value.handled + rest) == handled + rest;
      cursor, i := next, i + 1;
    }
  }

  // ---------------------------------------------------------------------------------------
  // The table

  /** A row, whether its key can be read, and whether the rest of it can. */
  datatype Row<K> = Row(key: K, keyOk: bool, restOk: bool)

  ghost predicate Ascending<K>(lt: (K, K) -> bool, rows: seq<Row<K>>) {
    forall i, j :: 0 <= i < j < |rows| ==> lt(rows[i].key, rows[j].key)
  }

  ghost predicate Above<K>(lt: (K, K) -> bool, least: K, rows: seq<Row<K>>) {
    forall i :: 0 <= i < |rows| ==> lt(least, rows[i].key)
  }

  /** The rows the query's `WHERE key > cursor ORDER BY key` leaves. */
  function After<K>(lt: (K, K) -> bool, rows: seq<Row<K>>, cursor: K): seq<Row<K>> {
    if rows == [] then []
    else (if lt(cursor, rows[0].key) then [rows[0]] else []) + After(lt, rows[1..], cursor)
  }

  function Take<T>(s: seq<T>, limit: nat): seq<T> {
    if |s| <= limit then s else s[..limit]
  }

  /** The keys of the rows that can be handled. */
  function Handled<K>(rows: seq<Row<K>>): seq<K> {
    if rows == [] then []
    else (if rows[0].keyOk && rows[0].restOk then [rows[0].key] else []) + Handled(rows[1..])
  }

  /** The key of the last row whose key can be read. */
  function LastKey<K>(rows: seq<Row<K>>): Option<K> {
    if rows == [] then None
    else if rows[|rows| - 1].keyOk then Some(rows[|rows| - 1].key)
    else LastKey(rows[..|rows| - 1])
  }

  function PageOf<K>(page: seq<Row<K>>): Page<K> {
    Page(|page|, LastKey(page), Handled(page))
  }

  /** Reads one page as the reindex steps do: an empty `lastId` means no key could be read. */
  method ReindexPage<K(==)>(page: seq<Row<K>>, least: K) returns (result: Page<K>)
    requires forall i :: 0 <= i < |page| ==> page[i].key != least
    ensures result == PageOf(page)
  {
    var handled, lastId := [], least;
    for i := 0 to |page|
      invariant handled == Handled(page[..i])
      invariant LastKey(page[..i]) == if lastId == least then None else Some(lastId)
    {
      HandledAppend(page[..i], page[i]);
      assert page[..i + 1] == page[..i] + [page[i]];
      if !page[i].keyOk {
        continue;
      }
      lastId := page[i].key;
      if !page[i].restOk {
        continue;
      }
      handled := handled + [page[i].key];
    }
    assert page[..|page|] == page;
    result := Page(|page|, if lastId == least then None else Some(lastId), handled);
  }

  lemma {:induction false} HandledAppend<K>(rows: seq<Row<K>>, row: Row<K>)
    ensures Handled(rows + [row]) == Handled(rows) + if row.keyOk && row.restOk then [row.key] else []
  {
    if rows != [] {
      assert (rows + [row])[1..] == rows[1..] + [row];
      HandledAppend(rows[1..], row);
    }
  }

  lemma {:induction false} HandledConcat<K>(a: seq<Row<K>>, b: seq<Row<K>>)
    ensures Handled(a + b) == Handled(a) + Handled(b)
  {
    if a == [] {
      assert a + b == b;
    } else {
      assert (a + b)[1..] == a[1..] + b;
      HandledConcat(a[1..], b);
    }
  }

  /** The step of a reindex over a fixed table; `fails` says which of its queries fail. */
  function TableStep<K(!new)>(lt: (K, K) -> bool, rows: seq<Row<K>>, batch: nat, fails: nat -> bool): Step<K> {
    (i: nat, cursor: K) =>
      if fails(i) then Err(()) else Ok(PageOf(Take(After(lt, rows, cursor), batch)))
  }

  function Rank<K(!new)>(lt: (K, K) -> bool, rows: seq<Row<K>>): K -> nat {
    (cursor: K) => |After(lt, rows, cursor)|
  }

  lemma {:induction false} Transitive<K(!new)>(lt: (K, K) -> bool, a: K, b: K, c: K)
    requires StrictTotal(lt) && lt(a, b) && lt(b, c)
    ensures lt(a, c)
  {
  }

  lemma {:induction false} AscendingRest<K>(lt: (K, K) -> bool, rows: seq<Row<K>>)
    requires Ascending(lt, rows) && rows != []
    ensures Ascending(lt, rows[1..])
    ensures forall i :: 0 < i < |rows| ==> lt(rows[0].key, rows[i].key)
  {
  }

  lemma {:induction false} AllAbove<K(!new)>(lt: (K, K) -> bool, rows: seq<Row<K>>, cursor: K, i: nat)
    requires StrictTotal(lt) && Ascending(lt, rows) && 0 < i < |rows| && lt(cursor, rows[0].key)
    ensures lt(cursor, rows[i].key)
  {
    Transitive(lt, cursor, rows[0].key, rows[i].key);
  }

  /** The rows past the cursor are a suffix, and the cursor stands where it begins. */
  lemma {:induction false} AfterFrom<K(!new)>(lt: (K, K) -> bool, rows: seq<Row<K>>, cursor: K) returns (p: nat)
    requires StrictTotal(lt) && Ascending(lt, rows)
    ensures p <= |rows| && After(lt, rows, cursor) == rows[p..]
    ensures p > 0 ==> !lt(cursor, rows[p - 1].key)
    ensures p < |rows| ==> lt(cursor, rows[p].key)
  {
    if rows == [] {
      p := 0;
    } else {
      AscendingRest(lt, rows);
      hide StrictTotal, Ascending;
      var q := AfterFrom(lt, rows[1..], cursor);
      if lt(cursor, rows[0].key) {
        p := 0;
        if q > 0 {
          AllAbove(lt, rows, cursor, q);
        }
        assert q == 0 && [rows[0]] + rows[1..] == rows;
      } else {
        p := q + 1;
      }
    }
  }

  /** Past the cursor stand exactly the rows from the first key above it on. */
  lemma {:induction false} AfterIsSuffix<K(!new)>(lt: (K, K) -> bool, rows: seq<Row<K>>, cursor: K) returns (p: nat)
    requires StrictTotal(lt) && Ascending(lt, rows)
    ensures p <= |rows| && After(lt, rows, cursor) == rows[p..]
    ensures forall i :: 0 <= i < p ==> !lt(cursor, rows[i].key)
    ensures forall i :: p <= i < |rows| ==> lt(cursor, rows[i].key)
  {
    hide StrictTotal, After;
    p := AfterFrom(lt, rows, cursor);
    forall i | p <= i < |rows| ensures lt(cursor, rows[i].key) {
      if p < i {
        Transitive(lt, cursor, rows[p].key, rows[i].key);
      }
    }
    forall i | 0 <= i < p ensures !lt(cursor, rows[i].key) {
      if lt(cursor, rows[i].key) && i < p - 1 {
        Transitive(lt, cursor, rows[i].key, rows[p - 1].key);
      }
    }
  }

  /** Past a row's own key stand the rows after it. */
  lemma {:induction false} AfterRow<K(!new)>(lt: (K, K) -> bool, rows: seq<Row<K>>, k: nat)
    requires StrictTotal(lt) && Ascending(lt, rows) && k < |rows|
    ensures After(lt, rows, rows[k].key) == rows[k + 1..]
  {
    var p := AfterIsSuffix(lt, rows, rows[k].key);
    assert !lt(rows[k].key, rows[k].key);
    if k + 1 < |rows| {
      assert lt(rows[k].key, rows[k + 1].key);
    }
  }

  lemma AfterLeast<K(!new)>(lt: (K, K) -> bool, rows: seq<Row<K>>, least: K)
    requires StrictTotal(lt) && Ascending(lt, rows) && Above(lt, least, rows)
    ensures After(lt, rows, least) == rows
  {
  }

  /** The last readable key of some rows is that of one of them, and nothing readable follows it. */
  lemma {:induction false} LastKeyAt<K>(rows: seq<Row<K>>) returns (k: nat)
    ensures LastKey(rows).None? ==> forall i :: 0 <= i < |rows| ==> !rows[i].keyOk
    ensures LastKey(rows).Some? ==>
              && k < |rows| && rows[k].keyOk && LastKey(rows).value == rows[k].key
              && forall i :: k < i < |rows| ==> !rows[i].keyOk
  {
    k := 0;
    if rows != [] {
      if rows[|rows| - 1].keyOk {
        k := |rows| - 1;
      } else {
        k := LastKeyAt(rows[..|rows| - 1]);
      }
    }
  }

  /** A page's last readable key leaves fewer rows past the cursor. */
  lemma {:induction false} PageShortens<K(!new)>(lt: (K, K) -> bool, rows: seq<Row<K>>, batch: nat, cursor: K)
    requires StrictTotal(lt) && Ascending(lt, rows)
    ensures var last := LastKey(Take(After(lt, rows, cursor), batch));
            last.Some? ==> |After(lt, rows, last.value)| < |After(lt, rows, cursor)|
  {
    hide After, LastKey, StrictTotal, Ascending;
    var p := AfterIsSuffix(lt, rows, cursor);
    var page := Take(rows[p..], batch);
    var k := LastKeyAt(page);
    if LastKey(page).Some? {
      assert page[k] == rows[p + k];
      AfterRow(lt, rows, p + k);
    }
  }

  lemma {:induction false} TableStepAdvances<K(!new)>(lt: (K, K) -> bool, rows: seq<Row<K>>, batch: nat, fails: nat -> bool)
    requires StrictTotal(lt) && Ascending(lt, rows)
    ensures Advancing(TableStep(lt, rows, batch, fails), lt, Rank(lt, rows))
  {
    hide After, LastKey, StrictTotal, Ascending, Handled;
    var step, rank := TableStep(lt, rows, batch, fails), Rank(lt, rows);
    forall i: nat, c | step(i, c).Ok? && step(i, c).value.last.Some? && lt(c, step(i, c).value.last.value)
      ensures rank(step(i, c).value.last.value) < rank(c)
    {
      PageShortens(lt, rows, batch, c);
      assert step(i, c) == Ok(PageOf(Take(After(lt, rows, c), batch)));
    }
  }

  /** `batch` rows in a row, from position `from` on, whose keys cannot be read. */
  predicate UnreadableRun<K>(rows: seq<Row<K>>, batch: nat, from: nat) {
    from + batch <= |rows| && forall i :: from <= i < from + batch ==> !rows[i].keyOk
  }

  ghost predicate HasUnreadableRun<K>(rows: seq<Row<K>>, batch: nat) {
    exists from :: UnreadableRun(rows, batch, from)
  }

  /** The cursor stands just before position `p`: at the start, or on a readable row. */
  ghost predicate StandsAt<K>(lt: (K, K) -> bool, rows: seq<Row<K>>, cursor: K, p: nat) {
    p <= |rows| && After(lt, rows, cursor) == rows[p..] && (p > 0 ==> rows[p - 1].keyOk)
  }

  lemma {:induction false} StandsBelow<K(!new)>(lt: (K, K) -> bool, rows: seq<Row<K>>, cursor: K, p: nat, i: nat)
    requires StrictTotal(lt) && Ascending(lt, rows) && StandsAt(lt, rows, cursor, p) && p <= i < |rows|
    ensures lt(cursor, rows[i].key)
  {
    var q := AfterIsSuffix(lt, rows, cursor);
    assert |rows[q..]| == |rows[p..]|;
  }

  lemma {:induction false} NothingHandled<K>(rows: seq<Row<K>>)
    requires forall i :: 0 <= i < |rows| ==> !rows[i].keyOk
    ensures Handled(rows) == []
  {
    if rows != [] {
      NothingHandled(rows[1..]);
    }
  }

  /** A full page without a readable key is an unreadable run, and handles nothing. */
  lemma {:induction false} StalledPage<K>(rows: seq<Row<K>>, p: nat, batch: nat)
    requires p + batch <= |rows| && LastKey(rows[p..p + batch]).None?
    ensures UnreadableRun(rows, batch, p) && Handled(rows[p..p + batch]) == []
  {
    var page := rows[p..p + batch];
    var _ := LastKeyAt(page);
    NothingHandled(page);
    forall j | p <= j < p + batch ensures !rows[j].keyOk {
      assert rows[j] == page[j - p];
    }
  }

  lemma {:induction false} Slices<T>(s: seq<T>, i: nat, j: nat, k: nat)
    requires i <= j <= k <= |s|
    ensures s[i..j] + s[j..k] == s[i..k] && s[i..j] + s[j..] == s[i..]
  {
  }

  /** Unreadable rows at a page's end add nothing to what it handles. */
  lemma {:induction false} HandledTail<K>(rows: seq<Row<K>>, p: nat, end: nat, page: seq<Row<K>>, k: nat)
    requires p <= end <= |rows| && page == rows[p..end] && k < |page|
    requires forall j :: k < j < |page| ==> !page[j].keyOk
    ensures Handled(rows[p..]) == Handled(page) + Handled(rows[p + k + 1..])
  {
    hide Handled;
    var cut := p + k + 1;
    forall j | 0 <= j < end - cut ensures !rows[cut..end][j].keyOk {
      assert rows[cut..end][j] == page[k + 1 + j];
    }
    NothingHandled(rows[cut..end]);
    Slices(rows, p, cut, end);
    HandledConcat(rows[p..cut], rows[cut..]);
    HandledConcat(rows[p..cut], rows[cut..end]);
  }

  /** The readable rows of a full page all stand before the cursor it leaves, as does any run begun in it. */
  lemma {:induction false} AdvancingPage<K>(rows: seq<Row<K>>, p: nat, batch: nat) returns (next: nat)
    requires p + batch <= |rows| && LastKey(rows[p..p + batch]).Some?
    ensures p <= next < p + batch && rows[next].keyOk && LastKey(rows[p..p + batch]) == Some(rows[next].key)
    ensures Handled(rows[p..]) == Handled(rows[p..p + batch]) + Handled(rows[next + 1..])
    ensures forall from :: p <= from < next + 1 ==> !UnreadableRun(rows, batch, from)
  {
    hide Handled, LastKey;
    var page := rows[p..p + batch];
    var k := LastKeyAt(page);
    next := p + k;
    HandledTail(rows, p, p + batch, page, k);
    NoRunOver(rows, batch, next);
  }

  /** A readable row is in no unreadable run. */
  lemma {:induction false} NoRunOver<K>(rows: seq<Row<K>>, batch: nat, next: nat)
    requires next < |rows| && rows[next].keyOk
    ensures forall from: nat :: from <= next < from + batch ==> !UnreadableRun(rows, batch, from)
  {
  }

  /** What a scan over the rows from `p` on may come to. */
  ghost predicate Settles<K>(rows: seq<Row<K>>, batch: nat, fails: nat -> bool, p: nat, outcome: Outcome, handled: seq<K>)
    requires p <= |rows|
  {
    match outcome
    case Finished => handled == Handled(rows[p..]) && forall from :: p <= from ==> !UnreadableRun(rows, batch, from)
    case NoCursor => handled <= Handled(rows[p..]) && exists from :: p <= from && UnreadableRun(rows, batch, from)
    case NotAdvanced => false
    case StepFailed => handled <= Handled(rows[p..]) && exists j: nat :: fails(j)
  }

  /**
   * From a cursor standing at `p`, the scan handles the readable rows from `p` on, in order and
   * without repeats, or stalls at a full page of unreadable rows.
   */
  lemma {:induction false} DriveTable<K(!new)>(
    lt: (K, K) -> bool, rows: seq<Row<K>>, batch: nat, fails: nat -> bool, i: nat, cursor: K, p: nat)
    requires StrictTotal(lt) && Ascending(lt, rows) && batch > 0
    requires Advancing(TableStep(lt, rows, batch, fails), lt, Rank(lt, rows))
    requires StandsAt(lt, rows, cursor, p)
    ensures var (outcome, handled) := Drive(TableStep(lt, rows, batch, fails), lt, Rank(lt, rows), batch, i, cursor);
            Settles(rows, batch, fails, p, outcome, handled)
    decreases |rows| - p
  {
    hide After, Handled, LastKey, Ascending, StrictTotal;
    if !fails(i) {
      if |rows| - p < batch {
        assert TableStep(lt, rows, batch, fails)(i, cursor) == Ok(PageOf(rows[p..]));
      } else {
        var page := rows[p..p + batch];
        assert Take(rows[p..], batch) == page;
        assert TableStep(lt, rows, batch, fails)(i, cursor) == Ok(PageOf(page));
        if LastKey(page).None? {
          StalledPage(rows, p, batch);
        } else {
          var next := AdvancingPage(rows, p, batch);
          StandsBelow(lt, rows, cursor, p, next);
          AfterRow(lt, rows, next);
          DriveTable(lt, rows, batch, fails, i + 1, rows[next].key, next + 1);
        }
      }
    }
  }

  /**
   * A reindex over any ordered table: when its queries succeed, it stalls exactly when some `batch`
   * rows in a row are unreadable, and otherwise handles every readable row once, in key order. What
   * it has handled when it stops early is always a first part of that.
   */
  method Reindex<K(!new)>(lt: (K, K) -> bool, least: K, rows: seq<Row<K>>, batch: nat, fails: nat -> bool)
    returns (outcome: Outcome, handled: seq<K>)
    requires StrictTotal(lt) && Ascending(lt, rows) && Above(lt, least, rows)
    ensures batch > 0 ==> handled <= Handled(rows)
    ensures batch > 0 && outcome.Finished? ==> handled == Handled(rows)
    ensures batch > 0 && (forall j: nat :: !fails(j)) ==>
              if HasUnreadableRun(rows, batch) then outcome.NoCursor? else outcome.Finished?
    ensures batch == 0 && !fails(0) ==> outcome.Finished? && handled == []
  {
    TableStepAdvances(lt, rows, batch, fails);
    AfterLeast(lt, rows, least);
    outcome, handled := Scan(TableStep(lt, rows, batch, fails), lt, Rank(lt, rows), least, batch);
    if batch > 0 {
      DriveTable(lt, rows, batch, fails, 0, least, 0);
      assert rows[0..] == rows;
    } else {
      assert Take(rows, 0) == [];
    }
  }

  const REINDEX_BATCH_SIZE: nat := 500

  /** A reindex paging on one string column: nothing is asked of the keys beyond being non-empty. */
  method ReindexByString(rows: seq<Row<string>>, fails: nat -> bool) returns (outcome: Outcome, handled: seq<string>)
    requires Ascending(StringLess, rows) && forall i :: 0 <= i < |rows| ==> rows[i].key != ""
    ensures handled <= Handled(rows) && (outcome.Finished? ==> handled == Handled(rows))
    ensures (forall j: nat :: !fails(j)) ==>
              if HasUnreadableRun(rows, REINDEX_BATCH_SIZE) then outcome.NoCursor? else outcome.Finished?
  {
    CursorsOrdered();
    outcome, handled := Reindex(StringLess, "", rows, REINDEX_BATCH_SIZE, fails);
  }

  /** The same scan paging on a row value of several columns. */
  method ReindexByRowValue(rows: seq<Row<seq<string>>>, batch: nat, fails: nat -> bool) returns (outcome: Outcome, handled: seq<seq<string>>)
    requires Ascending(RowValueLess, rows) && forall i :: 0 <= i < |rows| ==> rows[i].key != []
    ensures batch > 0 ==> handled <= Handled(rows) && (outcome.Finished? ==> handled == Handled(rows))
    ensures batch > 0 && (forall j: nat :: !fails(j)) ==>
              if HasUnreadableRun(rows, batch) then outcome.NoCursor? else outcome.Finished?
  {
    CursorsOrdered();
    outcome, handled := Reindex(RowValueLess, [], rows, batch, fails);
  }

  /** No record is handled twice, and every readable one is handled. */
  lemma {:induction false} HandledOnce<K(!new)>(lt: (K, K) -> bool, rows: seq<Row<K>>)
    requires StrictTotal(lt) && Ascending(lt, rows)
    ensures forall i, j :: 0 <= i < j < |Handled(rows)| ==> Handled(rows)[i] != Handled(rows)[j]
    ensures forall key :: key in Handled(rows) <==> exists i :: 0 <= i < |rows| && rows[i].keyOk && rows[i].restOk && rows[i].key == key
  {
    if rows != [] {
      HandledOnce(lt, rows[1..]);
      forall key | key in Handled(rows[1..]) ensures lt(rows[0].key, key) {
        var i :| 0 <= i < |rows[1..]| && rows[1..][i].key == key;
        assert rows[1..][i] == rows[i + 1];
      }
      var rest := Handled(rows[1..]);
      forall i, j | 0 <= i < j < |Handled(rows)| ensures Handled(rows)[i] != Handled(rows)[j] {
        if Handled(rows) == [rows[0].key] + rest {
          assert rest[j - 1] in rest;
        }
      }
      forall key ensures key in Handled(rows) <==> exists i :: 0 <= i < |rows| && rows[i].keyOk && rows[i].restOk && rows[i].key == key {
        if i :| 0 <= i < |rows| && rows[i].keyOk && rows[i].restOk && rows[i].key == key {
          assert i > 0 ==> rows[i] == rows[1..][i - 1];
        }
        if key in Handled(rows[1..]) {
          var i :| 0 <= i < |rows[1..]| && rows[1..][i].keyOk && rows[1..][i].restOk && rows[1..][i].key == key;
          assert rows[i + 1] == rows[1..][i];
        }
      }
    }
  }
}
