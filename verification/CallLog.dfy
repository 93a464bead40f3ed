/**
  The bounded call log: at most 200 rows, no two with the same time, the oldest evicted first;
  and the paging of its list by 20 behind a shared offset.
 */
module CallLog {
  import opened Basics

  const CALLLOG_MAX: nat := 200
  const PAGE: nat := 20
  const LOG_ALL := 3

  datatype Log = Log(num: Option<string>, logType: int, time: int, duration: int, reason: Option<string>)

  datatype Row = Row(id: int, log: Log)

  datatype Table = Table(rows: seq<Row>, nextId: int)

  // Which of the storage calls behind one save succeed.
  datatype Storage = Storage(countOk: bool, oldestOk: bool, deleteOk: bool, insertOk: bool)

  const SOUND := Storage(true, true, true, true)

  // ---- DBHelper's queries on the table ----

  predicate HasTime(rows: seq<Row>, time: int) {
    exists r :: r in rows && r.log.time == time
  }

  // "order by time asc limit 1": the first of the oldest rows.
  function Oldest(rows: seq<Row>): (i: nat)
    requires rows != []
    ensures i < |rows|
    ensures forall j | 0 <= j < |rows| :: rows[i].log.time <= rows[j].log.time
  {
    if |rows| == 1 then 0
    else
      var rest := 1 + Oldest(rows[1..]);
      if rows[rest].log.time < rows[0].log.time then rest else 0
  }

  function WithoutId(rows: seq<Row>, id: int): (r: seq<Row>)
    ensures |r| <= |rows|
  {
    if rows == [] then []
    else (if rows[0].id == id then [] else [rows[0]]) + WithoutId(rows[1..], id)
  }

  function Inserted(t: Table, log: Log, ok: bool): Table {
    if ok then Table(t.rows + [Row(t.nextId, log)], t.nextId + 1) else t
  }

  // ---- CallStateManager.saveCallLog ----

  predicate Accepted(t: Table, log: Log) {
    log.num.Some? && log.logType != LOG_ALL && !HasTime(t.rows, log.time)
  }

  function Evicted(t: Table, storage: Storage): Table
    requires t.rows != []
  {
    if storage.deleteOk then t.(rows := WithoutId(t.rows, t.rows[Oldest(t.rows)].id)) else t
  }

  function Saved(t: Table, log: Log, storage: Storage): Table {
    if !Accepted(t, log) then t
    else if storage.countOk && |t.rows| >= CALLLOG_MAX then
      if !storage.oldestOk then t else Inserted(Evicted(t, storage), log, storage.insertOk)
    else Inserted(t, log, storage.insertOk)
  }

  // ---- what the table keeps ----

  ghost predicate Keyed(t: Table) {
    && (forall i | 0 <= i < |t.rows| :: t.rows[i].id < t.nextId)
    && (forall i, j | 0 <= i < j < |t.rows| :: t.rows[i].id != t.rows[j].id)
  }

  ghost predicate DistinctTimes(rows: seq<Row>) {
    forall i, j | 0 <= i < j < |rows| :: rows[i].log.time != rows[j].log.time
  }

  function Cut<T>(s: seq<T>, i: nat): seq<T>
    requires i < |s|
  {
    s[..i] + s[i + 1..]
  }

  lemma CutCons<T>(s: seq<T>, i: nat)
    requires 0 < i < |s|
    ensures Cut(s, i) == [s[0]] + Cut(s[1..], i - 1)
  {
  }

  lemma {:induction false} WithoutIdRemovesOne(rows: seq<Row>, i: nat)
    requires i < |rows|
    requires forall j | 0 <= j < |rows| && j != i :: rows[j].id != rows[i].id
    ensures WithoutId(rows, rows[i].id) == Cut(rows, i)
  {
    if i == 0 {
      WithoutIdRemovesNone(rows[1..], rows[0].id);
    } else {
      WithoutIdRemovesOne(rows[1..], i - 1);
      CutCons(rows, i);
    }
  }

  lemma {:induction false} WithoutIdRemovesNone(rows: seq<Row>, id: int)
    requires forall i | 0 <= i < |rows| :: rows[i].id != id
    ensures WithoutId(rows, id) == rows
  {
    if rows != [] {
      WithoutIdRemovesNone(rows[1..], id);
    }
  }

  lemma EvictedMeaning(t: Table)
    requires Keyed(t) && t.rows != []
    ensures Evicted(t, SOUND).rows == Cut(t.rows, Oldest(t.rows))
  {
    WithoutIdRemovesOne(t.rows, Oldest(t.rows));
  }

  lemma CutKeepsDistinct(t: Table, i: nat)
    requires Keyed(t) && DistinctTimes(t.rows) && i < |t.rows|
    ensures Keyed(t.(rows := Cut(t.rows, i))) && DistinctTimes(Cut(t.rows, i))
    ensures forall r | r in Cut(t.rows, i) :: r in t.rows
  {
  }

  lemma InsertedKeepsDistinct(t: Table, log: Log, ok: bool)
    requires Keyed(t) && DistinctTimes(t.rows) && !HasTime(t.rows, log.time)
    ensures Keyed(Inserted(t, log, ok)) && DistinctTimes(Inserted(t, log, ok).rows)
  {
  }

  // Ids and times stay distinct whatever storage does.
  lemma SavedKeepsDistinct(t: Table, log: Log, storage: Storage)
    requires Keyed(t) && DistinctTimes(t.rows)
    ensures Keyed(Saved(t, log, storage)) && DistinctTimes(Saved(t, log, storage).rows)
  {
    if Accepted(t, log) {
      InsertedKeepsDistinct(t, log, storage.insertOk);
      if t.rows != [] {
        EvictedMeaning(t);
        CutKeepsDistinct(t, Oldest(t.rows));
        InsertedKeepsDistinct(Evicted(t, storage), log, storage.insertOk);
      }
    }
  }

  // The bound survives a save exactly unless a full table takes the row without losing one.
  lemma SavedKeepsBound(t: Table, log: Log, storage: Storage)
    requires Keyed(t) && |t.rows| <= CALLLOG_MAX
    ensures
      |Saved(t, log, storage).rows| <= CALLLOG_MAX
      <==> !(|t.rows| == CALLLOG_MAX && Accepted(t, log) && storage.insertOk
             && (!storage.countOk || (storage.oldestOk && !storage.deleteOk)))
  {
    if t.rows != [] {
      EvictedMeaning(t);
    }
  }

  // With sound storage a save appends the entry under a new id, and of a table of 200 drops a row no
  // younger than any other; it refuses entries without number, of the pseudo-type 3, or of a known time.
  lemma SavedLaw(t: Table, log: Log)
    requires Keyed(t) && DistinctTimes(t.rows)
    ensures
      var t' := Saved(t, log, SOUND);
      if log.num.None? || log.logType == 3 || exists r :: r in t.rows && r.log.time == log.time then t' == t
      else
        && t'.nextId == t.nextId + 1 && t'.rows != [] && t'.rows[|t'.rows| - 1] == Row(t.nextId, log)
        && (|t.rows| < 200 ==> t'.rows == t.rows + [Row(t.nextId, log)])
        && (|t.rows| >= 200 ==>
              var i := Oldest(t.rows);
              && (forall j | 0 <= j < |t.rows| :: t.rows[i].log.time <= t.rows[j].log.time)
              && t'.rows == t.rows[..i] + t.rows[i + 1..] + [Row(t.nextId, log)])
  {
    if t.rows != [] {
      EvictedMeaning(t);
    }
  }

  // A failing insert never adds a row; behind a successful eviction it even costs one.
  lemma FailedInsertLaw(t: Table, log: Log, storage: Storage)
    requires Keyed(t) && !storage.insertOk
    ensures
      var t' := Saved(t, log, storage);
      && (forall r :: r in t'.rows ==> r in t.rows)
      && |t'.rows| == |t.rows| - (if Accepted(t, log) && storage.countOk && |t.rows| >= 200
                                     && storage.oldestOk && storage.deleteOk then 1 else 0)
  {
    if t.rows != [] {
      EvictedMeaning(t);
    }
  }

  // A full table whose count fails takes its 201st row.
  lemma UncountedSaveOutgrows(rows: seq<Row>)
    requires rows == seq(CALLLOG_MAX, i => Row(i, Log(Some("1"), 0, i, 0, None)))
    ensures
      var t, log := Table(rows, CALLLOG_MAX), Log(Some("1"), 0, CALLLOG_MAX, 0, None);
      Keyed(t) && DistinctTimes(rows) && |Saved(t, log, SOUND.(countOk := false)).rows| == CALLLOG_MAX + 1
  {
    var t, log := Table(rows, CALLLOG_MAX), Log(Some("1"), 0, CALLLOG_MAX, 0, None);
    forall r | r in rows
      ensures r.log.time < CALLLOG_MAX
    {
      var i :| 0 <= i < |rows| && rows[i] == r;
    }
    assert Accepted(t, log);
  }

  function SavedAll(t: Table, logs: seq<Log>): Table
    decreases |logs|
  {
    if logs == [] then t else SavedAll(Saved(t, logs[0], SOUND), logs[1..])
  }

  lemma {:induction false} RunIsBounded(t: Table, logs: seq<Log>)
    requires Keyed(t) && DistinctTimes(t.rows) && |t.rows| <= CALLLOG_MAX
    ensures
      var t' := SavedAll(t, logs);
      Keyed(t') && DistinctTimes(t'.rows) && |t'.rows| <= CALLLOG_MAX
    decreases |logs|
  {
    if logs == [] {
    } else {
      SavedKeepsDistinct(t, logs[0], SOUND);
      SavedKeepsBound(t, logs[0], SOUND);
      RunIsBounded(Saved(t, logs[0], SOUND), logs[1..]);
    }
  }

  // ---- the sliding window ----

  function Logs(rows: seq<Row>): (l: seq<Log>)
    ensures |l| == |rows|
    ensures forall i | 0 <= i < |rows| :: l[i] == rows[i].log
  {
    if rows == [] then [] else [rows[0].log] + Logs(rows[1..])
  }

  // The entries saveCallLog takes at all, times aside.
  function Wanted(logs: seq<Log>): seq<Log> {
    if logs == [] then []
    else (if logs[0].num.Some? && logs[0].logType != LOG_ALL then [logs[0]] else []) + Wanted(logs[1..])
  }

  function Last<T>(s: seq<T>, n: nat): seq<T> {
    if |s| <= n then s else s[|s| - n..]
  }

  ghost predicate Rising(logs: seq<Log>) {
    forall i, j | 0 <= i < j < |logs| :: logs[i].time < logs[j].time
  }

  ghost predicate RisingRows(rows: seq<Row>) {
    forall i, j | 0 <= i < j < |rows| :: rows[i].log.time < rows[j].log.time
  }

  // Every row is older than every log.
  ghost predicate Before(rows: seq<Row>, logs: seq<Log>) {
    forall i, j | 0 <= i < |rows| && 0 <= j < |logs| :: rows[i].log.time < logs[j].time
  }

  lemma OldestOfRising(rows: seq<Row>)
    requires rows != [] && RisingRows(rows)
    ensures Oldest(rows) == 0
  {
  }

  lemma NewerIsNoRepeat(rows: seq<Row>, log: Log)
    requires Before(rows, [log])
    ensures !HasTime(rows, log.time)
  {
    forall r | r in rows
      ensures r.log.time < [log][0].time
    {
      var i :| 0 <= i < |rows| && rows[i] == r;
    }
  }

  lemma EvictedRising(t: Table)
    requires Keyed(t) && RisingRows(t.rows) && t.rows != []
    ensures Evicted(t, SOUND) == Table(t.rows[1..], t.nextId)
  {
    EvictedMeaning(t);
    OldestOfRising(t.rows);
    assert Cut(t.rows, 0) == t.rows[1..];
  }

  lemma FullTableSlides(t: Table, log: Log)
    requires Keyed(t) && RisingRows(t.rows) && |t.rows| == CALLLOG_MAX && Accepted(t, log)
    ensures Saved(t, log, SOUND) == Table(t.rows[1..] + [Row(t.nextId, log)], t.nextId + 1)
  {
    EvictedRising(t);
  }

  lemma SaveSlides(t: Table, log: Log)
    requires Keyed(t) && RisingRows(t.rows) && |t.rows| <= CALLLOG_MAX
    requires log.num.Some? && log.logType != LOG_ALL && Before(t.rows, [log])
    ensures Saved(t, log, SOUND) == Table(Last(t.rows + [Row(t.nextId, log)], CALLLOG_MAX), t.nextId + 1)
  {
    NewerIsNoRepeat(t.rows, log);
    if |t.rows| == CALLLOG_MAX {
      FullTableSlides(t, log);
      assert (t.rows + [Row(t.nextId, log)])[1..] == t.rows[1..] + [Row(t.nextId, log)];
    }
  }

  lemma LastOfLast<T>(a: seq<T>, b: seq<T>, n: nat)
    ensures Last(Last(a, n) + b, n) == Last(a + b, n)
  {
  }

  lemma LogsOfSuffix(rows: seq<Row>, n: nat)
    ensures Logs(Last(rows, n)) == Last(Logs(rows), n)
  {
  }

  lemma LogsOfLast(rows: seq<Row>, row: Row, n: nat)
    ensures Logs(Last(rows + [row], n)) == Last(Logs(rows) + [row.log], n)
  {
    LogsOfSuffix(rows + [row], n);
    assert Logs(rows + [row]) == Logs(rows) + [row.log];
  }

  // A table whose rows rise, all older than logs that rise in turn.
  ghost predicate Ready(t: Table, logs: seq<Log>) {
    && Keyed(t) && RisingRows(t.rows) && |t.rows| <= CALLLOG_MAX
    && Rising(logs) && Before(t.rows, logs)
  }

  lemma AppendRises(t: Table, logs: seq<Log>)
    requires logs != [] && Ready(t, logs)
    ensures
      var all := t.rows + [Row(t.nextId, logs[0])];
      Keyed(Table(all, t.nextId + 1)) && RisingRows(all) && Before(all, logs[1..]) && Rising(logs[1..])
  {
  }

  lemma LastKeeps(all: seq<Row>, nextId: int, logs: seq<Log>)
    requires Keyed(Table(all, nextId)) && RisingRows(all) && Before(all, logs) && Rising(logs)
    ensures Ready(Table(Last(all, CALLLOG_MAX), nextId), logs)
  {
  }

  lemma SlideReady(t: Table, logs: seq<Log>)
    requires logs != [] && Ready(t, logs)
    requires logs[0].num.Some? && logs[0].logType != LOG_ALL
    ensures
      var t1 := Saved(t, logs[0], SOUND);
      Ready(t1, logs[1..]) && Logs(t1.rows) == Last(Logs(t.rows) + [logs[0]], CALLLOG_MAX)
  {
    var all := t.rows + [Row(t.nextId, logs[0])];
    SaveSlides(t, logs[0]);
    LogsOfLast(t.rows, Row(t.nextId, logs[0]), CALLLOG_MAX);
    AppendRises(t, logs);
    LastKeeps(all, t.nextId + 1, logs[1..]);
  }

  // While the times of the entries saveCallLog takes rise, the log is exactly the last 200 of them,
  // whatever the entries it refuses look like.
  lemma {:induction false} LogIsSlidingWindow(t: Table, logs: seq<Log>)
    requires Ready(t, Wanted(logs))
    ensures Logs(SavedAll(t, logs).rows) == Last(Logs(t.rows) + Wanted(logs), CALLLOG_MAX)
    decreases |logs|
  {
    var kept, wanted := Logs(t.rows), Wanted(logs);
    if logs == [] {
      assert kept + [] == kept;
    } else if logs[0].num.Some? && logs[0].logType != LOG_ALL {
      assert wanted[1..] == Wanted(logs[1..]);
      SlideReady(t, wanted);
      LogIsSlidingWindow(Saved(t, logs[0], SOUND), logs[1..]);
      WindowChain(kept, logs[0], Wanted(logs[1..]));
    } else {
      assert [] + Wanted(logs[1..]) == Wanted(logs[1..]);
      LogIsSlidingWindow(t, logs[1..]);
    }
  }

  lemma WindowChain(kept: seq<Log>, log: Log, rest: seq<Log>)
    ensures Last(Last(kept + [log], CALLLOG_MAX) + rest, CALLLOG_MAX) == Last(kept + ([log] + rest), CALLLOG_MAX)
  {
    LastOfLast(kept + [log], rest, CALLLOG_MAX);
    assert kept + [log] + rest == kept + ([log] + rest);
  }

  // ---- paging ----

  function Filtered(rows: seq<Row>, logType: int): (f: seq<Row>)
    ensures |f| <= |rows|
    ensures forall r | r in f :: r in rows
  {
    if rows == [] then []
    else (if logType == LOG_ALL || rows[0].log.logType == logType then [rows[0]] else [])
         + Filtered(rows[1..], logType)
  }

  predicate OfType(row: Row, logType: int) {
    logType == 3 || row.log.logType == logType
  }

  // The rows of a tab are those of its type, each as often as the table has it; type 3 is the tab of all.
  lemma {:induction false} FilteredLaw(rows: seq<Row>, logType: int, row: Row)
    ensures multiset(Filtered(rows, logType))[row] == if OfType(row, logType) then multiset(rows)[row] else 0
  {
    if rows != [] {
      FilteredLaw(rows[1..], logType, row);
      assert rows == [rows[0]] + rows[1..];
    }
  }

  // What the first n rows of an answer are: rows of the type, newest first, none older than a row of
  // the type left out; and all of them once n reaches their number.
  lemma ListingLaw(rows: seq<Row>, logType: int, order: seq<Row>, n: nat)
    requires Ordered(rows, logType, order)
    ensures
      var list := Prefix(order, n);
      && (forall r :: r in list ==> r in rows && OfType(r, logType))
      && Newest(list)
      && (forall r, q :: r in list && q in rows && OfType(q, logType) && q !in list ==> q.log.time <= r.log.time)
      && (|order| <= n ==> forall r :: r in rows && OfType(r, logType) ==> r in list)
  {
    var list := Prefix(order, n);
    forall r
      ensures r in order <==> r in rows && OfType(r, logType)
    {
      FilteredLaw(rows, logType, r);
      assert r in order <==> r in multiset(order);
      assert r in rows <==> r in multiset(rows);
    }
    forall r, q | r in list && q in rows && OfType(q, logType) && q !in list
      ensures q.log.time <= r.log.time
    {
      var i :| 0 <= i < |list| && list[i] == r;
      var j :| 0 <= j < |order| && order[j] == q;
      assert |list| <= j;
    }
  }

  // An answer SQLite may give to "order by time desc": the filtered rows, newest first. Rows of
  // equal time may come in any order, and in another order next time.
  ghost predicate Ordered(rows: seq<Row>, logType: int, order: seq<Row>) {
    && multiset(order) == multiset(Filtered(rows, logType))
    && Newest(order)
  }

  // "limit 20 offset o"
  function Page(order: seq<Row>, offset: nat): seq<Row> {
    if |order| <= offset then []
    else if |order| <= offset + PAGE then order[offset..]
    else order[offset..offset + PAGE]
  }

  // The first page, then k loads at offsets 20, 40 and on; load j sees orders[j].
  function Loaded(orders: seq<seq<Row>>): seq<Row> {
    if orders == [] then []
    else Loaded(orders[..|orders| - 1]) + Page(orders[|orders| - 1], PAGE * (|orders| - 1))
  }

  function Prefix<T>(s: seq<T>, n: nat): seq<T> {
    if |s| <= n then s else s[..n]
  }

  ghost predicate TimesIdentify(rows: seq<Row>) {
    forall i, j | 0 <= i < |rows| && 0 <= j < |rows| && rows[i].log.time == rows[j].log.time :: rows[i] == rows[j]
  }

  lemma OrderedTimesIdentify(rows: seq<Row>, logType: int, order: seq<Row>)
    requires DistinctTimes(rows) && Ordered(rows, logType, order)
    ensures TimesIdentify(order)
  {
    forall i, j | 0 <= i < |order| && 0 <= j < |order| && order[i].log.time == order[j].log.time
      ensures order[i] == order[j]
    {
      assert order[i] in multiset(order) && order[j] in multiset(order);
      var f := Filtered(rows, logType);
      assert order[i] in f && order[j] in f;
      var k :| 0 <= k < |rows| && rows[k] == order[i];
      var l :| 0 <= l < |rows| && rows[l] == order[j];
    }
  }

  ghost predicate Newest(s: seq<Row>) {
    forall i, j | 0 <= i < j < |s| :: s[i].log.time >= s[j].log.time
  }

  lemma WithoutFirst(s: seq<Row>)
    requires s != []
    ensures multiset(s[1..]) == multiset(s) - multiset{s[0]}
  {
    assert s == [s[0]] + s[1..];
  }

  lemma NewestFirst(a: seq<Row>, b: seq<Row>)
    requires multiset(a) == multiset(b) && a != [] && Newest(a) && Newest(b) && TimesIdentify(a)
    ensures b != [] && a[0] == b[0] && multiset(a[1..]) == multiset(b[1..])
  {
    assert |multiset(a)| == |multiset(b)|;
    assert a[0] in multiset(b) && b[0] in multiset(a);
    var i :| 0 <= i < |b| && b[i] == a[0];
    var j :| 0 <= j < |a| && a[j] == b[0];
    assert a[0].log.time == a[j].log.time;
    WithoutFirst(a);
    WithoutFirst(b);
  }

  // Rows told apart by time have only one newest-first order.
  lemma {:induction false} OrderIsUnique(a: seq<Row>, b: seq<Row>)
    requires multiset(a) == multiset(b) && Newest(a) && Newest(b) && TimesIdentify(a)
    ensures a == b
  {
    if a == [] {
      assert |multiset(a)| == |multiset(b)|;
    } else {
      NewestFirst(a, b);
      OrderIsUnique(a[1..], b[1..]);
      assert a == [a[0]] + a[1..] && b == [b[0]] + b[1..];
    }
  }

  lemma PageExtends(order: seq<Row>, offset: nat)
    ensures Prefix(order, offset) + Page(order, offset) == Prefix(order, offset + PAGE)
  {
  }

  lemma {:induction false} SameOrderTiles(orders: seq<seq<Row>>, order: seq<Row>)
    requires forall i | 0 <= i < |orders| :: orders[i] == order
    ensures Loaded(orders) == Prefix(order, PAGE * |orders|)
  {
    if orders == [] {
    } else {
      SameOrderTiles(orders[..|orders| - 1], order);
      PageExtends(order, PAGE * (|orders| - 1));
    }
  }

  // Over an unchanged table with distinct times, the pages loaded are the newest rows, none lost
  // and none twice, whatever order SQLite answers each query in.
  lemma PagesTile(rows: seq<Row>, logType: int, orders: seq<seq<Row>>, order: seq<Row>)
    requires DistinctTimes(rows) && Ordered(rows, logType, order)
    requires forall i | 0 <= i < |orders| :: Ordered(rows, logType, orders[i])
    ensures Loaded(orders) == Prefix(order, PAGE * |orders|)
  {
    OrderedTimesIdentify(rows, logType, order);
    forall i | 0 <= i < |orders|
      ensures orders[i] == order
    {
      OrderIsUnique(order, orders[i]);
    }
    SameOrderTiles(orders, order);
  }

  lemma {:induction false} FilteredAll(rows: seq<Row>)
    ensures Filtered(rows, LOG_ALL) == rows
  {
    if rows != [] {
      FilteredAll(rows[1..]);
    }
  }

  // Rows of equal time can be shown twice and lost: SQLite may answer the second query with
  // another order.
  lemma EqualTimesCanRepeat(rows: seq<Row>)
    requires |rows| == PAGE + 1
    requires forall i | 0 <= i < |rows| :: rows[i].log.time == rows[0].log.time
    ensures
      var turned := rows[1..] + [rows[0]];
      && Ordered(rows, LOG_ALL, rows) && Ordered(rows, LOG_ALL, turned)
      && Loaded([rows, turned]) == rows[..PAGE] + [rows[0]]
  {
    var turned := rows[1..] + [rows[0]];
    FilteredAll(rows);
    assert rows == [rows[0]] + rows[1..];
    assert [rows, turned][..1] == [rows] && [rows][..0] == [];
    assert Loaded([rows]) == rows[..PAGE];
    assert Page(turned, PAGE) == [rows[0]];
  }
}
