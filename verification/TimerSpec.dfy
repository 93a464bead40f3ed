/**
  The timer heaps of the Android port as a table: which heap is registered where, which entry
  sits in which slot, and the back-pointer (`_timer_id`) each entry carries. Heaps and entries
  are told apart by names of any types H and E.
 */
module TimerSpec {
  import opened Basics

  const MAX_HEAPS: nat := 64
  const MAX_ENTRY_PER_HEAP: nat := 128

  datatype Table<H(==), E(==)> = Table(
    registry: seq<Option<H>>,          // sHeaps
    cursor: nat,                       // sCurrentHeap
    heapId: map<H, nat>,
    slots: map<H, seq<Option<E>>>,     // every heap created so far
    live: set<H>,                      // created and not destroyed
    timerId: map<E, int>)              // every entry initialised so far

  datatype Event<H, E> =
    | Create(heap: H, junk: nat)                     // junk: heap_id as the pool left it
    | Init(entry: E)
    | Schedule(heap: H, entry: E)
    | Cancel(heap: H, entry: E, native: int)         // native: what the alarm service answers
    | Fire(entry: E)
    | Destroy(heap: H, natives: seq<int>)

  datatype Outcome<H, E> =
    | Accepted(heap: H, entry: E)
    | Fired(heap: H, entry: E)
    | Cancelled(heap: H, entry: E)

  // The first empty slot at or after `from`, or the length of s.
  function FirstFree<T>(s: seq<Option<T>>, from: nat): (i: nat)
    requires from <= |s|
    ensures from <= i <= |s|
    ensures i < |s| ==> s[i].None?
    ensures forall j | from <= j < i :: s[j].Some?
    decreases |s| - from
  {
    if from == |s| || s[from].None? then from else FirstFree(s, from + 1)
  }

  function Emptied<T>(s: seq<Option<T>>, i: nat): seq<Option<T>>
    requires i < |s|
  {
    s[i := None]
  }

  // ---- the shape of a table ----

  ghost predicate Shaped<H, E>(t: Table<H, E>) {
    && |t.registry| == MAX_HEAPS && t.cursor < MAX_HEAPS
    && t.live <= t.slots.Keys && t.slots.Keys == t.heapId.Keys
    && (forall h | h in t.slots :: |t.slots[h]| == MAX_ENTRY_PER_HEAP)
    && (forall h, i | h in t.slots && 0 <= i < |t.slots[h]| && t.slots[h][i].Some? ::
          t.slots[h][i].value in t.timerId)
    && (forall e | e in t.timerId :: -1 <= t.timerId[e] < MAX_ENTRY_PER_HEAP)
    && (forall i | 0 <= i < |t.registry| && t.registry[i].Some? :: t.registry[i].value in t.live)
  }

  ghost predicate Linked<H, E>(t: Table<H, E>, h: H, e: E) {
    h in t.slots && Some(e) in t.slots[h]
  }

  ghost predicate LinkedLive<H, E>(t: Table<H, E>, e: E) {
    exists h :: h in t.live && Linked(t, h, e)
  }

  // Slot i of a live heap holds an entry whose back-pointer is i.
  ghost predicate PointsBack<H, E>(t: Table<H, E>)
    requires Shaped(t)
  {
    forall h, i | h in t.live && 0 <= i < MAX_ENTRY_PER_HEAP && t.slots[h][i].Some? ::
      t.timerId[t.slots[h][i].value] == i
  }

  // No entry sits in two live heaps.
  ghost predicate Exclusive<H, E>(t: Table<H, E>)
    requires Shaped(t)
  {
    forall h1, h2, i, j | h1 in t.live && h2 in t.live && h1 != h2
                          && 0 <= i < MAX_ENTRY_PER_HEAP && 0 <= j < MAX_ENTRY_PER_HEAP
                          && t.slots[h1][i].Some? ::
      t.slots[h1][i] != t.slots[h2][j]
  }

  ghost predicate Registered<H, E>(t: Table<H, E>)
    requires Shaped(t)
  {
    forall i | 0 <= i < MAX_HEAPS && t.registry[i].Some? :: t.heapId[t.registry[i].value] == i
  }

  ghost predicate Inv<H, E>(t: Table<H, E>) {
    Shaped(t) && PointsBack(t) && Exclusive(t) && Registered(t)
  }

  // ---- the operations ----

  // What a caller can do at all: heaps are fresh or live, entries initialised.
  ghost predicate Possible<H, E>(t: Table<H, E>, ev: Event<H, E>) {
    match ev
    case Create(h, _) => h !in t.slots
    case Init(_) => true
    case Schedule(h, e) => h in t.live && e in t.timerId
    case Cancel(h, e, _) => h in t.live && e in t.timerId
    case Fire(e) => e in t.timerId
    case Destroy(h, natives) => h in t.live && h in t.heapId && t.heapId[h] < MAX_HEAPS && |natives| == MAX_ENTRY_PER_HEAP
  }

  function Created<H, E>(t: Table<H, E>, h: H, junk: nat): Table<H, E>
    requires Shaped(t)
  {
    var i := FirstFree(t.registry, t.cursor);
    var t' := t.(slots := t.slots[h := seq(MAX_ENTRY_PER_HEAP, _ => None)], live := t.live + {h});
    if i < MAX_HEAPS
    then t'.(registry := t.registry[i := Some(h)], heapId := t.heapId[h := i], cursor := i)
    else t'.(heapId := t.heapId[h := junk])
  }

  // The guard only stops entries in slots 1 and up, and a full heap still answers success.
  function Scheduled<H, E>(t: Table<H, E>, h: H, e: E): Table<H, E>
    requires Shaped(t) && Possible(t, Schedule(h, e))
  {
    var i := FirstFree(t.slots[h], 0);
    if t.timerId[e] >= 1 then t
    else if i < MAX_ENTRY_PER_HEAP
    then t.(slots := t.slots[h := t.slots[h][i := Some(e)]], timerId := t.timerId[e := i])
    else t.(timerId := t.timerId[e := -1])
  }

  ghost predicate Accepts<H, E>(t: Table<H, E>, e: E)
    requires e in t.timerId
  {
    t.timerId[e] < 1
  }

  ghost predicate CancelHits<H, E>(t: Table<H, E>, h: H, e: E, native: int)
    requires Shaped(t) && h in t.slots && e in t.timerId
  {
    t.timerId[e] >= 0 && t.slots[h][t.timerId[e]].Some? && native > 0
  }

  ghost function CanceledIn<H, E>(t: Table<H, E>, h: H, e: E, native: int): Table<H, E>
    requires Shaped(t) && h in t.slots && e in t.timerId
  {
    if CancelHits(t, h, e, native)
    then t.(slots := t.slots[h := Emptied(t.slots[h], t.timerId[e])], timerId := t.timerId[e := -1])
    else t
  }

  // The first registered heap that holds e.
  ghost function HeapOf<H, E>(t: Table<H, E>, e: E, from: nat): (r: Option<H>)
    requires Shaped(t) && from <= MAX_HEAPS
    ensures r.Some? ==> Linked(t, r.value, e) && r.value in t.live && Some(r.value) in t.registry
    ensures r.None? ==> forall i | from <= i < MAX_HEAPS && t.registry[i].Some? :: !Linked(t, t.registry[i].value, e)
    decreases MAX_HEAPS - from
  {
    if from == MAX_HEAPS then None
    else if t.registry[from].Some? && Linked(t, t.registry[from].value, e) then t.registry[from]
    else HeapOf(t, e, from + 1)
  }

  ghost function FiredIn<H, E>(t: Table<H, E>, e: E): Table<H, E>
    requires Inv(t) && e in t.timerId
  {
    var h := HeapOf(t, e, 0);
    if h.None? then t
    else
      LinkedAtId(t, h.value, e);
      t.(slots := t.slots[h.value := Emptied(t.slots[h.value], t.timerId[e])],
         timerId := t.timerId[e := -1])
  }

  lemma LinkedAtId<H, E>(t: Table<H, E>, h: H, e: E)
    requires Shaped(t) && PointsBack(t) && h in t.live && Linked(t, h, e)
    ensures 0 <= t.timerId[e] && t.slots[h][t.timerId[e]] == Some(e)
  {
    var i :| 0 <= i < MAX_ENTRY_PER_HEAP && t.slots[h][i] == Some(e);
  }

  // The loop of destroy, from slot i on, with what it cancelled.
  ghost function Swept<H, E>(t: Table<H, E>, h: H, natives: seq<int>, i: nat)
    : (r: (Table<H, E>, seq<Outcome<H, E>>))
    requires Shaped(t) && h in t.slots && |natives| == MAX_ENTRY_PER_HEAP && i <= MAX_ENTRY_PER_HEAP
    ensures Shaped(r.0) && r.0.slots.Keys == t.slots.Keys
    ensures r.0.registry == t.registry && r.0.heapId == t.heapId && r.0.live == t.live && r.0.cursor == t.cursor
    decreases MAX_ENTRY_PER_HEAP - i
  {
    if i == MAX_ENTRY_PER_HEAP then (t, [])
    else if t.slots[h][i].None? then Swept(t, h, natives, i + 1)
    else
      var e := t.slots[h][i].value;
      var rest := Swept(CanceledIn(t, h, e, natives[i]), h, natives, i + 1);
      (rest.0, (if CancelHits(t, h, e, natives[i]) then [Cancelled(h, e)] else []) + rest.1)
  }

  // The end of destroy: the heap's place is emptied and the cursor moves on, wherever it was.
  ghost function Forgotten<H, E>(t: Table<H, E>, h: H): Table<H, E>
    requires Shaped(t) && h in t.heapId && t.heapId[h] < MAX_HEAPS
  {
    t.(cursor := (t.cursor + 1) % MAX_HEAPS,
       registry := t.registry[t.heapId[h] := None],
       live := t.live - {h})
  }

  ghost function Destroyed<H, E>(t: Table<H, E>, h: H, natives: seq<int>): Table<H, E>
    requires Shaped(t) && Possible(t, Destroy(h, natives))
  {
    Forgotten(Swept(t, h, natives, 0).0, h)
  }

  ghost function Step<H, E>(t: Table<H, E>, ev: Event<H, E>): Table<H, E>
    requires Inv(t) && Possible(t, ev)
  {
    match ev
    case Create(h, junk) => Created(t, h, junk)
    case Init(e) => t.(timerId := t.timerId[e := -1])
    case Schedule(h, e) => Scheduled(t, h, e)
    case Cancel(h, e, native) => CanceledIn(t, h, e, native)
    case Fire(e) => FiredIn(t, e)
    case Destroy(h, natives) => Destroyed(t, h, natives)
  }

  // What the operation reports: schedules that answer success, callbacks run, cancels that count.
  ghost function Outcomes<H, E>(t: Table<H, E>, ev: Event<H, E>): seq<Outcome<H, E>>
    requires Inv(t) && Possible(t, ev)
  {
    match ev
    case Create(_, _) => []
    case Init(_) => []
    case Schedule(h, e) => if Accepts(t, e) then [Accepted(h, e)] else []
    case Cancel(h, e, native) => if CancelHits(t, h, e, native) then [Cancelled(h, e)] else []
    case Fire(e) => if HeapOf(t, e, 0).Some? then [Fired(HeapOf(t, e, 0).value, e)] else []
    case Destroy(h, natives) => Swept(t, h, natives, 0).1
  }
}
