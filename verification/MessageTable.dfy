/**
  MessageCl over its table. SQLite's own queries are the functions of `MessageSpec`; the cursor
  loops are loops here.
 */
module MessageTable {
  import opened Basics
  import opened MessageSpec
  import MessageSafety

  class MessageCl {
    var rows: seq<Row>
    var nextId: int

    constructor ()
      ensures Contents() == Store([], 1)
    {
      rows, nextId := [], 1;
    }

    ghost function Contents(): Store
      reads this
    {
      Store(rows, nextId)
    }

    method GetThreadIds() returns (threadIds: set<int>)
      ensures threadIds == ThreadIds(rows)
    {
      threadIds := {};
      for i := 0 to |rows|
        invariant threadIds == ThreadIds(rows[..i])
      {
        var threadId := rows[i].msg.thread;
        if threadId != 0 {
          threadIds := threadIds + {threadId};
        }
        assert rows[..i + 1] == rows[..i] + [rows[i]];
      }
      assert rows[..|rows|] == rows;
    }

    method GetThreadIdFromAddress(address: string) returns (threadId: int)
      ensures threadId == ThreadOf(rows, address)
    {
      threadId := 0;
      var cursor := Where(rows, (r: Row) => r.msg.address == address);
      if |cursor| != 0 {
        threadId := cursor[0].msg.thread;
      }
    }

    method AddNew(ms: Message) returns (id: int)
      modifies this
      ensures Contents() == Added(old(Contents()), ms) && id == old(nextId)
      ensures |rows| == |old(rows)| + 1 && rows[..|old(rows)|] == old(rows)
      ensures rows[|old(rows)|].id == id && rows[|old(rows)|].msg.(thread := ms.thread) == ms
      ensures MessageSafety.Threads(old(rows)) ==>
                (MessageSafety.Threads(rows) <==> MessageSafety.Fits(old(rows), ms))
    {
      MessageSafety.AddedExactIf(Contents(), ms);
      var threadIds := GetThreadIds();
      var threadId := ms.thread;
      if threadIds == {} {
        threadId := 1;
      } else if threadId == 0 {
        threadId := MaxThread(rows) + 1;
      }
      id := nextId;
      rows := rows + [Row(id, ms.(thread := threadId))];
      nextId := nextId + 1;
    }

    // MessageReceiver.onReceive and the send buttons: look the thread up, then add.
    method Receive(ms: Message)
      modifies this
      ensures Contents() == Exchanged(old(Contents()), ms)
    {
      var threadId := GetThreadIdFromAddress(ms.address);
      var id := AddNew(ms.(thread := threadId));
    }

    // The number of rows that went, compared with 1. Ids being distinct, the one row of the id goes and
    // the answer is yes, or nothing goes and the answer is no.
    method DeleteMsg(id: int) returns (deleted: bool)
      modifies this
      ensures Contents() == Step(old(Contents()), Event.DeleteMsg(id))
      ensures forall r :: r in rows <==> r in old(rows) && r.id != id
      ensures deleted <==> |WithId(old(rows), id)| == 1
      ensures deleted <==> |rows| == |old(rows)| - 1
      ensures old(MessageSafety.Keyed(Contents())) ==>
                if deleted then exists i: nat :: i < |old(rows)| && old(rows)[i].id == id
                                                && rows == old(rows)[..i] + old(rows)[i + 1..]
                else rows == old(rows) && forall r :: r in rows ==> r.id != id
    {
      MessageSafety.WhereSplits(rows, (r: Row) => r.id == id, (r: Row) => r.id != id);
      var before := |rows|;
      rows := Where(rows, (r: Row) => r.id != id);
      deleted := before - |rows| == 1;
      if old(MessageSafety.Keyed(Contents())) {
        MessageSafety.IdNamesOneRow(old(rows), nextId, id);
        if i: nat :| i < |old(rows)| && old(rows)[i].id == id {
          assert old(rows)[i] in old(rows);
          MessageSafety.DeletedById(old(rows), i);
        } else {
          MessageSafety.NoneOfId(old(rows), id);
        }
      }
    }

    // The same comparison, which tells whether rows went exactly for sessions of at most one message.
    method DeleteSession(threadId: int) returns (deleted: bool)
      modifies this
      ensures Contents() == Step(old(Contents()), Event.DeleteSession(threadId))
      ensures forall r :: r in rows <==> r in old(rows) && r.msg.thread != threadId
      ensures deleted <==> |InThread(old(rows), threadId)| == 1
      ensures (deleted <==> rows != old(rows)) <==> |InThread(old(rows), threadId)| <= 1
    {
      MessageSafety.WhereSplits(rows, (r: Row) => r.msg.thread == threadId, (r: Row) => r.msg.thread != threadId);
      var before := |rows|;
      rows := Where(rows, (r: Row) => r.msg.thread != threadId);
      deleted := before - |rows| == 1;
      if |rows| == before {
        MessageSafety.NoneDeleted(old(rows), threadId);
      }
    }

    method UpdateMsgReadStatus(threadId: int, status: int) returns (updated: bool)
      modifies this
      ensures Contents() == Step(old(Contents()), MarkRead(threadId, status))
      ensures |rows| == |old(rows)|
      ensures forall i | 0 <= i < |rows| ::
                rows[i] == if old(rows)[i].msg.thread == threadId
                           then old(rows)[i].(msg := old(rows)[i].msg.(read := status)) else old(rows)[i]
      ensures updated <==> exists r :: r in old(rows) && r.msg.thread == threadId
    {
      var matching := Where(rows, (r: Row) => r.msg.thread == threadId);
      updated := |matching| > 0;
      assert updated ==> matching[0] in rows;
      rows := Updated(rows, (r: Row) => r.msg.thread == threadId, (r: Row) => r.(msg := r.msg.(read := status)));
    }

    // The rows `grouped` are what "group by thread_id order by _id desc" answered.
    method GetSessionList(grouped: seq<Row>) returns (sessions: seq<Message>)
      requires MessageSafety.Threads(rows) && MessageSafety.GroupedByThread(rows, grouped)
      ensures |sessions| == |grouped| && forall i | 0 <= i < |sessions| :: sessions[i] == grouped[i].msg
      ensures forall i, j | 0 <= i < j < |sessions| :: sessions[i].address != sessions[j].address
      ensures forall r | r in rows :: exists m :: m in sessions && m.address == r.msg.address
    {
      sessions := [];
      for i := 0 to |grouped|
        invariant |sessions| == i
        invariant forall j | 0 <= j < i :: sessions[j] == grouped[j].msg
      {
        sessions := sessions + [grouped[i].msg];
      }
      MessageSafety.SessionsAreConversations(rows, grouped);
      forall r | r in rows
        ensures exists m :: m in sessions && m.address == r.msg.address
      {
        var i := MessageSafety.SessionOf(rows, grouped, r);
        assert sessions[i] in sessions;
      }
    }
  }
}
