/**
  The message table: rows in insertion order, queries as filters over them, and the thread ids
  that stand for conversations.
 */
module MessageSpec {

  datatype Message = Message(
    thread: int, address: string, date: string, body: string, kind: int, read: int, sent: int)

  datatype Row = Row(id: int, msg: Message)

  // nextId: SQLite's autoincrement counter.
  datatype Store = Store(rows: seq<Row>, nextId: int)

  datatype Event =
    | Exchange(msg: Message)                 // receive, or send from a screen that looks the thread up
    | Resend(msg: Message)                   // the chat screen adds a message it holds, as it is
    | DeleteMsg(id: int)
    | DeleteSession(thread: int)
    | MarkRead(thread: int, status: int)
    | MarkSent(id: int, status: int)

  // ---- queries ----

  function Where(rows: seq<Row>, p: Row -> bool): (r: seq<Row>)
    ensures |r| <= |rows|
    ensures forall x | x in r :: x in rows && p(x)
    ensures forall x | x in rows && p(x) :: x in r
  {
    if rows == [] then []
    else (if p(rows[0]) then [rows[0]] else []) + Where(rows[1..], p)
  }

  function Updated(rows: seq<Row>, p: Row -> bool, f: Row -> Row): (r: seq<Row>)
    ensures |r| == |rows|
    ensures forall i | 0 <= i < |rows| :: r[i] == if p(rows[i]) then f(rows[i]) else rows[i]
  {
    if rows == [] then []
    else [if p(rows[0]) then f(rows[0]) else rows[0]] + Updated(rows[1..], p, f)
  }

  // select max(thread_id): zero stands for SQL's null.
  function MaxThread(rows: seq<Row>): (m: int)
    ensures forall r | r in rows :: r.msg.thread <= m
    ensures rows != [] ==> exists r :: r in rows && r.msg.thread == m
  {
    if rows == [] then 0
    else if |rows| == 1 then rows[0].msg.thread
    else
      var rest := MaxThread(rows[1..]);
      if rows[0].msg.thread > rest then rows[0].msg.thread else rest
  }

  function ThreadIds(rows: seq<Row>): set<int> {
    set r | r in rows && r.msg.thread != 0 :: r.msg.thread
  }

  predicate AddressIn(rows: seq<Row>, address: string) {
    exists r :: r in rows && r.msg.address == address
  }

  // The thread id of the first row with this address, zero when there is none.
  function ThreadOf(rows: seq<Row>, address: string): int {
    var found := Where(rows, (r: Row) => r.msg.address == address);
    if found == [] then 0 else found[0].msg.thread
  }

  function InThread(rows: seq<Row>, thread: int): seq<Row> {
    Where(rows, (r: Row) => r.msg.thread == thread)
  }

  function WithId(rows: seq<Row>, id: int): seq<Row> {
    Where(rows, (r: Row) => r.id == id)
  }

  // ---- changes ----

  function NewThread(rows: seq<Row>, thread: int): int {
    if ThreadIds(rows) == {} then 1
    else if thread == 0 then MaxThread(rows) + 1
    else thread
  }

  function Added(s: Store, msg: Message): Store {
    Store(s.rows + [Row(s.nextId, msg.(thread := NewThread(s.rows, msg.thread)))], s.nextId + 1)
  }

  function Exchanged(s: Store, msg: Message): Store {
    Added(s, msg.(thread := ThreadOf(s.rows, msg.address)))
  }

  function WithoutThread(rows: seq<Row>, thread: int): seq<Row> {
    Where(rows, (r: Row) => r.msg.thread != thread)
  }

  function ReadThread(rows: seq<Row>, thread: int, status: int): seq<Row> {
    Updated(rows, (r: Row) => r.msg.thread == thread, (r: Row) => r.(msg := r.msg.(read := status)))
  }

  function Step(s: Store, ev: Event): Store {
    match ev
    case Exchange(msg) => Exchanged(s, msg)
    case Resend(msg) => Added(s, msg)
    case DeleteMsg(id) => s.(rows := Where(s.rows, (r: Row) => r.id != id))
    case DeleteSession(thread) => s.(rows := WithoutThread(s.rows, thread))
    case MarkRead(thread, status) => s.(rows := ReadThread(s.rows, thread, status))
    case MarkSent(id, status) =>
      s.(rows := Updated(s.rows, (r: Row) => r.id == id, (r: Row) => r.(msg := r.msg.(sent := status))))
  }

  function Run(s: Store, evs: seq<Event>): Store
    decreases |evs|
  {
    if evs == [] then s else Run(Step(s, evs[0]), evs[1..])
  }
}
