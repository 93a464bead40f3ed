/**
  Thread ids and addresses stay in step over every run of the message table, and what that
  makes of the session list and of the operations that work by thread id.
 */
module MessageSafety {
  import opened MessageSpec

  // Thread ids start at 1, and two rows share one exactly when they share an address.
  ghost predicate Threads(rows: seq<Row>) {
    && (forall r | r in rows :: r.msg.thread >= 1)
    && (forall r1, r2 | r1 in rows && r2 in rows ::
          r1.msg.thread == r2.msg.thread <==> r1.msg.address == r2.msg.address)
  }

  // The thread a message brings along fits the table: none for a new address, the address's own
  // for a known one, anything for an empty table.
  ghost predicate Fits(rows: seq<Row>, msg: Message) {
    || rows == []
    || (msg.thread == 0 && !AddressIn(rows, msg.address))
    || (msg.thread >= 1 && forall r | r in rows :: r.msg.thread == msg.thread <==> r.msg.address == msg.address)
  }

  lemma NewThreadMeaning(rows: seq<Row>, thread: int)
    requires Threads(rows)
    ensures
      NewThread(rows, thread)
        == if rows == [] then 1 else if thread == 0 then MaxThread(rows) + 1 else thread
    ensures rows != [] && thread == 0 ==> forall r | r in rows :: r.msg.thread < NewThread(rows, thread)
  {
    if rows != [] {
      assert rows[0].msg.thread in ThreadIds(rows);
    }
  }

  // addNew keeps threads and addresses in step exactly when the message fits.
  lemma AddedExact(s: Store, msg: Message)
    requires Threads(s.rows)
    ensures Threads(Added(s, msg).rows) <==> Fits(s.rows, msg)
  {
    NewThreadMeaning(s.rows, msg.thread);
    var added := Row(s.nextId, msg.(thread := NewThread(s.rows, msg.thread)));
    var rows := Added(s, msg).rows;
    assert added in rows && forall r | r in s.rows :: r in rows;
    assert forall r | r in rows :: r in s.rows || r == added;
    if s.rows != [] {
      assert s.rows[0] in rows;
    }
  }

  lemma AddedExactIf(s: Store, msg: Message)
    ensures Threads(s.rows) ==> (Threads(Added(s, msg).rows) <==> Fits(s.rows, msg))
  {
    if Threads(s.rows) {
      AddedExact(s, msg);
    }
  }

  lemma ThreadOfMeaning(rows: seq<Row>, address: string)
    requires Threads(rows)
    ensures ThreadOf(rows, address) == 0 <==> !AddressIn(rows, address)
    ensures forall r | r in rows && r.msg.address == address :: r.msg.thread == ThreadOf(rows, address)
  {
    var found := Where(rows, (r: Row) => r.msg.address == address);
    if found != [] {
      assert found[0] in rows;
    }
  }

  lemma ExchangedFits(s: Store, msg: Message)
    requires Threads(s.rows)
    ensures Threads(Exchanged(s, msg).rows)
  {
    ThreadOfMeaning(s.rows, msg.address);
    var looked := msg.(thread := ThreadOf(s.rows, msg.address));
    if AddressIn(s.rows, msg.address) {
      var r :| r in s.rows && r.msg.address == msg.address;
      assert r.msg.thread == looked.thread;
    }
    AddedExact(s, looked);
  }

  // Updates that leave thread and address alone keep the correspondence.
  lemma UpdatedThreads(rows: seq<Row>, rows': seq<Row>)
    requires Threads(rows) && |rows'| == |rows|
    requires forall i | 0 <= i < |rows| ::
               rows'[i].msg.thread == rows[i].msg.thread && rows'[i].msg.address == rows[i].msg.address
    ensures Threads(rows')
  {
    forall r | r in rows'
      ensures exists q :: q in rows && q.msg.thread == r.msg.thread && q.msg.address == r.msg.address
    {
      var i :| 0 <= i < |rows'| && rows'[i] == r;
      assert rows[i] in rows;
    }
  }

  lemma StepKeepsThreads(s: Store, ev: Event)
    requires Threads(s.rows)
    ensures Threads(Step(s, ev).rows) <==> (ev.Resend? ==> Fits(s.rows, ev.msg))
  {
    match ev
    case Exchange(msg) => ExchangedFits(s, msg);
    case Resend(msg) => AddedExact(s, msg);
    case MarkRead(_, _) => UpdatedThreads(s.rows, Step(s, ev).rows);
    case MarkSent(_, _) => UpdatedThreads(s.rows, Step(s, ev).rows);
    case _ =>
  }

  ghost predicate ResendsFit(s: Store, evs: seq<Event>)
    decreases |evs|
  {
    evs == [] ||
    ((evs[0].Resend? ==> Fits(s.rows, evs[0].msg)) && ResendsFit(Step(s, evs[0]), evs[1..]))
  }

  lemma {:induction false} RunKeepsThreads(s: Store, evs: seq<Event>)
    requires Threads(s.rows) && ResendsFit(s, evs)
    ensures Threads(Run(s, evs).rows)
    decreases |evs|
  {
    if evs == [] {
    } else {
      StepKeepsThreads(s, evs[0]);
      RunKeepsThreads(Step(s, evs[0]), evs[1..]);
    }
  }

  // A message still in the table can always be sent again.
  lemma CurrentMessageFits(rows: seq<Row>, r: Row)
    requires Threads(rows) && r in rows
    ensures Fits(rows, r.msg)
  {
  }

  // A new address gets the id one above all others.
  lemma FirstExchange(s: Store, msg: Message)
    requires Threads(s.rows) && !AddressIn(s.rows, msg.address)
    ensures
      var thread := if s.rows == [] then 1 else MaxThread(s.rows) + 1;
      Exchanged(s, msg) == Store(s.rows + [Row(s.nextId, msg.(thread := thread))], s.nextId + 1)
  {
    ThreadOfMeaning(s.rows, msg.address);
    NewThreadMeaning(s.rows, 0);
  }

  // A message a screen still holds after its session was deleted may not fit: here "a" had thread 2,
  // the session goes, "c" arrives and takes thread 2.
  lemma StaleResendMixesThreads(a: Message, b: Message, c: Message)
    requires a.address == "a" && b.address == "b" && c.address == "c"
    ensures
      var s2 := Exchanged(Exchanged(Store([], 1), b), a);
      var s4 := Exchanged(s2.(rows := WithoutThread(s2.rows, 2)), c);
      && Threads(s4.rows) && s2.rows[1].msg == a.(thread := 2)
      && !Threads(Added(s4, s2.rows[1].msg).rows)
  {
    var rowB, rowA, rowC := Row(1, b.(thread := 1)), Row(2, a.(thread := 2)), Row(3, c.(thread := 2));
    FirstExchange(Store([], 1), b);
    assert Exchanged(Store([], 1), b) == Store([rowB], 2);
    SecondExchange(rowB, a, 2);
    KeptRow(rowB, rowA);
    var s2 := Store([rowB, rowA], 3);
    assert Exchanged(Exchanged(Store([], 1), b), a) == s2;
    assert s2.(rows := WithoutThread(s2.rows, 2)) == Store([rowB], 3);
    SecondExchange(rowB, c, 3);
    assert rowC in [rowB, rowC] && !Fits([rowB, rowC], rowA.msg);
    AddedExact(Store([rowB, rowC], 4), rowA.msg);
  }

  lemma SecondExchange(first: Row, msg: Message, id: int)
    requires first.msg.thread == 1 && first.msg.address != msg.address
    ensures Exchanged(Store([first], id), msg) == Store([first, Row(id, msg.(thread := 2))], id + 1)
    ensures Threads([first, Row(id, msg.(thread := 2))])
  {
    FirstExchange(Store([first], id), msg);
    assert MaxThread([first]) == 1;
    assert [first] + [Row(id, msg.(thread := 2))] == [first, Row(id, msg.(thread := 2))];
  }

  lemma KeptRow(kept: Row, gone: Row)
    requires kept.msg.thread == 1 && gone.msg.thread == 2
    ensures WithoutThread([kept, gone], 2) == [kept]
  {
    var other := (r: Row) => r.msg.thread != 2;
    assert [kept, gone][1..] == [gone] && [gone][1..] == [];
    assert Where([gone], other) == [];
    assert Where([kept, gone], other) == [kept] + Where([gone], other);
  }

  // ---- what the operations keep of the rows ----

  // A query looks at each row by itself and keeps table order and repeats.
  lemma {:induction false} WhereJoins(a: seq<Row>, b: seq<Row>, p: Row -> bool)
    ensures Where(a + b, p) == Where(a, p) + Where(b, p)
  {
    if a == [] {
      assert a + b == b;
    } else {
      WhereJoins(a[1..], b, p);
      assert (a + b)[0] == a[0] && (a + b)[1..] == a[1..] + b;
      var first := if p(a[0]) then [a[0]] else [];
      JoinsAssociate(first, Where(a[1..], p), Where(b, p));
    }
  }

  lemma JoinsAssociate<T>(a: seq<T>, b: seq<T>, c: seq<T>)
    ensures (a + b) + c == a + (b + c)
  {
  }

  lemma WhereOne(row: Row, p: Row -> bool)
    ensures Where([row], p) == if p(row) then [row] else []
  {
    assert [row][1..] == [];
  }

  // Deleting by id takes out the one row of that id and closes the gap, or changes nothing.
  lemma {:induction false} DeletedById(rows: seq<Row>, i: nat)
    requires i < |rows| && forall j | 0 <= j < |rows| && j != i :: rows[j].id != rows[i].id
    ensures Where(rows, (r: Row) => r.id != rows[i].id) == rows[..i] + rows[i + 1..]
  {
    var id := rows[i].id;
    if i == 0 {
      NoneOfId(rows[1..], id);
    } else {
      DeletedById(rows[1..], i - 1);
      assert rows[1..][i - 1] == rows[i];
      assert rows[..i] + rows[i + 1..] == [rows[0]] + (rows[1..][..i - 1] + rows[1..][i..]);
    }
  }

  lemma {:induction false} NoneOfId(rows: seq<Row>, id: int)
    requires forall j | 0 <= j < |rows| :: rows[j].id != id
    ensures Where(rows, (r: Row) => r.id != id) == rows
  {
    if rows != [] {
      NoneOfId(rows[1..], id);
    }
  }

  // A message sent or received is appended as it is under its address's thread, or under a new one.
  lemma ExchangeLaw(s: Store, msg: Message)
    requires Threads(s.rows)
    ensures
      var s' := Exchanged(s, msg);
      var last := s'.rows[|s.rows|];
      && |s'.rows| == |s.rows| + 1 && s'.rows[..|s.rows|] == s.rows && s'.nextId == s.nextId + 1
      && last == Row(s.nextId, Message(last.msg.thread, msg.address, msg.date, msg.body, msg.kind, msg.read, msg.sent))
      && (s.rows == [] ==> last.msg.thread == 1)
      && (forall r | r in s.rows :: r.msg.address == msg.address ==> last.msg.thread == r.msg.thread)
      && (!AddressIn(s.rows, msg.address) ==> forall r | r in s.rows :: last.msg.thread > r.msg.thread)
  {
    ThreadOfMeaning(s.rows, msg.address);
    NewThreadMeaning(s.rows, ThreadOf(s.rows, msg.address));
  }

  // A message added with a thread of its own keeps it, and all its other fields, unless the table is empty.
  lemma ResendLaw(s: Store, msg: Message)
    requires Threads(s.rows) && s.rows != [] && msg.thread != 0
    ensures Step(s, Resend(msg)) == Store(s.rows + [Row(s.nextId, msg)], s.nextId + 1)
  {
    NewThreadMeaning(s.rows, msg.thread);
  }

  // Marking changes the one field, of the rows of the thread, or of the row of the id.
  lemma MarkLaw(s: Store, thread: int, id: int, status: int, i: nat)
    requires i < |s.rows|
    ensures
      var r, read, sent := s.rows[i], Step(s, MarkRead(thread, status)), Step(s, MarkSent(id, status));
      && |read.rows| == |sent.rows| == |s.rows| && read.nextId == sent.nextId == s.nextId
      && read.rows[i] == (if r.msg.thread == thread then Row(r.id, r.msg.(read := status)) else r)
      && sent.rows[i] == (if r.id == id then Row(r.id, r.msg.(sent := status)) else r)
  {
  }

  // ---- what the deletions answer ----

  lemma {:induction false} WhereSplits(rows: seq<Row>, p: Row -> bool, q: Row -> bool)
    requires forall r :: q(r) <==> !p(r)
    ensures |Where(rows, p)| + |Where(rows, q)| == |rows|
  {
    if rows != [] {
      WhereSplits(rows[1..], p, q);
    }
  }

  // Ids come from the counter and are never given twice.
  ghost predicate Keyed(s: Store) {
    && (forall i | 0 <= i < |s.rows| :: s.rows[i].id < s.nextId)
    && (forall i, j | 0 <= i < j < |s.rows| :: s.rows[i].id != s.rows[j].id)
  }

  lemma {:induction false} WhereKeyed(rows: seq<Row>, nextId: int, p: Row -> bool)
    requires Keyed(Store(rows, nextId))
    ensures Keyed(Store(Where(rows, p), nextId))
  {
    if rows != [] {
      WhereKeyed(rows[1..], nextId, p);
      var rest := Where(rows[1..], p);
      forall i | 0 <= i < |rest|
        ensures rest[i].id != rows[0].id
      {
        assert rest[i] in rows[1..];
      }
    }
  }

  lemma StepKeyed(s: Store, ev: Event)
    requires Keyed(s)
    ensures Keyed(Step(s, ev))
  {
    match ev
    case DeleteMsg(id) => WhereKeyed(s.rows, s.nextId, (r: Row) => r.id != id);
    case DeleteSession(thread) => WhereKeyed(s.rows, s.nextId, (r: Row) => r.msg.thread != thread);
    case _ =>
  }

  lemma {:induction false} RunKeyed(s: Store, evs: seq<Event>)
    requires Keyed(s)
    ensures Keyed(Run(s, evs))
    decreases |evs|
  {
    if evs == [] {
    } else {
      StepKeyed(s, evs[0]);
      RunKeyed(Step(s, evs[0]), evs[1..]);
    }
  }

  lemma {:induction false} IdNamesOneRow(rows: seq<Row>, nextId: int, id: int)
    requires Keyed(Store(rows, nextId))
    ensures |WithId(rows, id)| == if exists r :: r in rows && r.id == id then 1 else 0
  {
    if rows != [] {
      IdNamesOneRow(rows[1..], nextId, id);
      assert forall r | r in rows[1..] :: r in rows;
      assert rows[0] in rows;
    }
  }

  lemma {:induction false} NoneDeleted(rows: seq<Row>, thread: int)
    requires |WithoutThread(rows, thread)| == |rows|
    ensures WithoutThread(rows, thread) == rows
  {
    if rows != [] {
      NoneDeleted(rows[1..], thread);
    }
  }

  // A session of two messages goes as a whole, and the answer is still no.
  lemma TwoMessageSession(first: Message, second: Message)
    requires first.address == second.address
    ensures
      var s := Exchanged(Exchanged(Store([], 1), first), second);
      |InThread(s.rows, 1)| == 2 && Step(s, DeleteSession(1)).rows == []
  {
    FirstExchange(Store([], 1), first);
    var rowA, rowB := Row(1, first.(thread := 1)), Row(2, second.(thread := 1));
    assert Exchanged(Store([], 1), first) == Store([rowA], 2);
    assert Where([rowA], (r: Row) => r.msg.address == second.address) == [rowA];
    assert ThreadIds([rowA]) == {1};
    assert Exchanged(Store([rowA], 2), second).rows == [rowA, rowB];
    assert [rowA, rowB][1..] == [rowB] && [rowB][1..] == [];
    assert InThread([rowB], 1) == [rowB] && WithoutThread([rowB], 1) == [];
  }

  // ---- working by thread id ----

  // Deleting or marking by a thread id touches all rows of one address and no other.
  lemma {:induction false} ThreadIsAddress(rows: seq<Row>, thread: int, address: string, status: int)
    requires forall r | r in rows :: r.msg.thread == thread <==> r.msg.address == address
    ensures WithoutThread(rows, thread) == Where(rows, (r: Row) => r.msg.address != address)
    ensures ReadThread(rows, thread, status)
              == Updated(rows, (r: Row) => r.msg.address == address, (r: Row) => r.(msg := r.msg.(read := status)))
  {
    if rows == [] {
    } else {
      ThreadIsAddress(rows[1..], thread, address, status);
    }
  }

  lemma SessionIsConversation(rows: seq<Row>, session: Row, status: int)
    requires Threads(rows) && session in rows
    ensures WithoutThread(rows, session.msg.thread) == Where(rows, (r: Row) => r.msg.address != session.msg.address)
    ensures ReadThread(rows, session.msg.thread, status)
              == Updated(rows, (r: Row) => r.msg.address == session.msg.address,
                         (r: Row) => r.(msg := r.msg.(read := status)))
  {
    ThreadIsAddress(rows, session.msg.thread, session.msg.address, status);
  }

  // ---- the session list ----

  // What "group by thread_id" may answer: one row of each group, any row, in any order.
  ghost predicate GroupedByThread(rows: seq<Row>, sessions: seq<Row>) {
    && (forall s | s in sessions :: s in rows)
    && (forall i, j | 0 <= i < j < |sessions| :: sessions[i].msg.thread != sessions[j].msg.thread)
    && ThreadIds(sessions) == ThreadIds(rows)
  }

  function CountOf(rows: seq<Row>, address: string): nat {
    |Where(rows, (r: Row) => r.msg.address == address)|
  }

  function TotalOf(rows: seq<Row>, sessions: seq<Row>): nat {
    if sessions == [] then 0
    else CountOf(rows, sessions[0].msg.address) + TotalOf(rows, sessions[1..])
  }

  function Named(sessions: seq<Row>, address: string): nat {
    if sessions == [] then 0
    else (if sessions[0].msg.address == address then 1 else 0) + Named(sessions[1..], address)
  }

  lemma {:induction false} TotalOfCons(r: Row, rows: seq<Row>, sessions: seq<Row>)
    ensures TotalOf([r] + rows, sessions) == TotalOf(rows, sessions) + Named(sessions, r.msg.address)
  {
    if sessions == [] {
    } else {
      TotalOfCons(r, rows, sessions[1..]);
      assert ([r] + rows)[1..] == rows;
    }
  }

  lemma {:induction false} TotalOfNone(sessions: seq<Row>)
    ensures TotalOf([], sessions) == 0
  {
    if sessions != [] {
      TotalOfNone(sessions[1..]);
    }
  }

  lemma {:induction false} NamedOnce(sessions: seq<Row>, i: nat)
    requires i < |sessions|
    requires forall j | 0 <= j < |sessions| && j != i :: sessions[j].msg.address != sessions[i].msg.address
    ensures Named(sessions, sessions[i].msg.address) == 1
  {
    if i == 0 {
      NamedNever(sessions[1..], sessions[0].msg.address);
    } else {
      NamedOnce(sessions[1..], i - 1);
    }
  }

  lemma {:induction false} NamedNever(sessions: seq<Row>, address: string)
    requires forall s | s in sessions :: s.msg.address != address
    ensures Named(sessions, address) == 0
  {
    if sessions != [] {
      NamedNever(sessions[1..], address);
    }
  }

  lemma {:induction false} TotalOfAll(rows: seq<Row>, sessions: seq<Row>)
    requires forall r | r in rows :: Named(sessions, r.msg.address) == 1
    ensures TotalOf(rows, sessions) == |rows|
  {
    if rows == [] {
      TotalOfNone(sessions);
    } else {
      TotalOfAll(rows[1..], sessions);
      TotalOfCons(rows[0], rows[1..], sessions);
      assert [rows[0]] + rows[1..] == rows;
    }
  }

  lemma SessionsDiffer(rows: seq<Row>, sessions: seq<Row>, i: nat, j: nat)
    requires Threads(rows) && GroupedByThread(rows, sessions)
    requires i < |sessions| && j < |sessions| && i != j
    ensures sessions[i].msg.address != sessions[j].msg.address
  {
    assert sessions[i] in rows && sessions[j] in rows;
    assert sessions[if i < j then i else j].msg.thread != sessions[if i < j then j else i].msg.thread;
  }

  lemma SessionOf(rows: seq<Row>, sessions: seq<Row>, r: Row) returns (i: nat)
    requires Threads(rows) && GroupedByThread(rows, sessions) && r in rows
    ensures i < |sessions| && sessions[i].msg.address == r.msg.address
  {
    assert r.msg.thread in ThreadIds(sessions);
    i :| 0 <= i < |sessions| && sessions[i].msg.thread == r.msg.thread;
    assert sessions[i] in rows;
  }

  // Whichever rows SQLite picks, the list has one entry per address, and the message counts shown
  // beside the entries add up to the table.
  lemma SessionsAreConversations(rows: seq<Row>, sessions: seq<Row>)
    requires Threads(rows) && GroupedByThread(rows, sessions)
    ensures forall i, j | 0 <= i < j < |sessions| :: sessions[i].msg.address != sessions[j].msg.address
    ensures forall r | r in rows :: Named(sessions, r.msg.address) == 1
    ensures TotalOf(rows, sessions) == |rows|
  {
    forall i, j | 0 <= i < j < |sessions|
      ensures sessions[i].msg.address != sessions[j].msg.address
    {
      SessionsDiffer(rows, sessions, i, j);
    }
    forall r | r in rows
      ensures Named(sessions, r.msg.address) == 1
    {
      var i := SessionOf(rows, sessions, r);
      forall j | 0 <= j < |sessions| && j != i
        ensures sessions[j].msg.address != sessions[i].msg.address
      {
        SessionsDiffer(rows, sessions, i, j);
      }
      NamedOnce(sessions, i);
    }
    TotalOfAll(rows, sessions);
  }
}
