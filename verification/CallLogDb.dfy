/**
  DBHelper's call-log table and its shared paging offset, with CallStateManager.saveCallLog on
  top. Answers of SQLite that its documentation leaves open are parameters.
 */
module CallLogDb {
  import opened Basics
  import opened CallLog

  class DBHelper {
    var rows: seq<Row>
    var nextId: int
    var index: nat

    constructor ()
      ensures Contents() == Table([], 1) && index == PAGE
    {
      rows, nextId, index := [], 1, PAGE;
    }

    ghost function Contents(): Table
      reads this
    {
      Table(rows, nextId)
    }

    method QueryLogCountByTime(time: int) returns (count: nat)
      ensures count > 0 <==> HasTime(rows, time)
    {
      count := 0;
      for i := 0 to |rows|
        invariant count > 0 <==> HasTime(rows[..i], time)
      {
        if rows[i].log.time == time {
          count := count + 1;
        }
        assert rows[..i + 1] == rows[..i] + [rows[i]];
      }
      assert rows[..|rows|] == rows;
    }

    method SaveCallLog(callLog: Log, storage: Storage)
      modifies this
      ensures Contents() == Saved(old(Contents()), callLog, storage) && index == old(index)
      ensures old(Keyed(Contents()) && DistinctTimes(rows)) ==> Keyed(Contents()) && DistinctTimes(rows)
    {
      if Keyed(Contents()) && DistinctTimes(rows) {
        SavedKeepsDistinct(Contents(), callLog, storage);
      }
      if callLog.num.None? || callLog.logType == LOG_ALL {
        return;
      }
      var count := QueryLogCountByTime(callLog.time);
      if count > 0 {
        return;
      }
      var maxCount := if storage.countOk then |rows| else -1;
      if maxCount >= CALLLOG_MAX {
        if !storage.oldestOk {
          return;
        }
        var log := rows[Oldest(rows)];
        if storage.deleteOk {
          rows := WithoutId(rows, log.id);
        }
      }
      if storage.insertOk {
        rows := rows + [Row(nextId, callLog)];
        nextId := nextId + 1;
      }
    }

    method ResetIndex()
      modifies this`index
      ensures index == PAGE
    {
      index := PAGE;
    }

    method QueryCallLog(logType: int, answer: seq<Row>) returns (page: seq<Row>)
      requires Ordered(rows, logType, answer)
      ensures page == Page(answer, 0)
    {
      page := Limit(answer, 0);
    }

    method QueryCallLogAdd(logType: int, answer: seq<Row>) returns (page: seq<Row>)
      requires Ordered(rows, logType, answer)
      modifies this`index
      ensures page == Page(answer, old(index)) && index == old(index) + PAGE
    {
      page := Limit(answer, index);
      index := index + PAGE;
    }

    // The cursor loop behind both queries: "limit 20 offset o".
    method Limit(answer: seq<Row>, offset: nat) returns (page: seq<Row>)
      ensures page == Page(answer, offset)
    {
      page := [];
      var i := offset;
      while i < |answer| && i < offset + PAGE
        invariant offset <= i <= offset + PAGE
        invariant i > offset ==> i <= |answer| && page == answer[offset..i]
        invariant i == offset ==> page == []
      {
        page := page + [answer[i]];
        i := i + 1;
      }
    }

    // A tab opened, then |answers| - 1 presses of "load more"; answers[j] is SQLite's order for
    // query j over the table, which does not change meanwhile.
    method LoadPages(logType: int, answers: seq<seq<Row>>) returns (list: seq<Row>)
      requires Keyed(Contents()) && DistinctTimes(rows) && answers != []
      requires forall i | 0 <= i < |answers| :: Ordered(rows, logType, answers[i])
      modifies this`index
      ensures list == Prefix(answers[0], 20 * |answers|)
      ensures forall r :: r in list ==> r in rows && OfType(r, logType)
      ensures Newest(list)
      ensures forall r, q :: r in list && q in rows && OfType(q, logType) && q !in list ==> q.log.time <= r.log.time
      ensures |answers[0]| <= 20 * |answers| ==> forall r :: r in rows && OfType(r, logType) ==> r in list
    {
      ResetIndex();
      list := QueryCallLog(logType, answers[0]);
      assert answers[..1] == [answers[0]] && Loaded([]) == [];
      for j := 1 to |answers|
        invariant index == PAGE * j && list == Loaded(answers[..j])
      {
        var page := QueryCallLogAdd(logType, answers[j]);
        list := list + page;
        assert answers[..j + 1][..j] == answers[..j];
      }
      assert answers[..|answers|] == answers;
      PagesTile(rows, logType, answers, answers[0]);
      ListingLaw(rows, logType, answers[0], 20 * |answers|);
    }
  }
}
