/**
  What every timer operation keeps: back-pointers, exclusive slots, and the account of schedules
  against callbacks and cancels. Each operation keeps them exactly under `Guarded`.
 */
module TimerSafety {
  import opened Basics
  import opened TimerSpec

  function Unit(b: bool): int {
    if b then 1 else 0
  }

  ghost function Times<H, E>(out: seq<Outcome<H, E>>, o: Outcome<H, E>): int {
    multiset(out)[o]
  }

  ghost function Net<H, E>(out: seq<Outcome<H, E>>, h: H, e: E): int {
    Times(out, Accepted(h, e)) - Times(out, Fired(h, e)) - Times(out, Cancelled(h, e))
  }

  // A schedule puts the entry in a slot of its heap; a callback or a cancel takes it out.
  ghost predicate Balanced<H, E>(t: Table<H, E>, out: seq<Outcome<H, E>>, t': Table<H, E>) {
    forall h, e | h in t'.slots && e in t'.timerId ::
      Unit(Linked(t', h, e)) - Unit(Linked(t, h, e)) == Net(out, h, e)
  }

  // What the callers of each operation must see to.
  ghost predicate Guarded<H, E>(t: Table<H, E>, ev: Event<H, E>)
    requires Shaped(t) && Possible(t, ev)
  {
    match ev
    case Create(_, _) => true
    case Init(e) => !LinkedLive(t, e)
    case Schedule(h, e) => Accepts(t, e) ==> !LinkedLive(t, e) && None in t.slots[h]
    case Cancel(h, e, native) => CancelHits(t, h, e, native) ==> t.slots[h][t.timerId[e]] == Some(e)
    case Fire(_) => true
    case Destroy(_, _) => true
  }

  lemma EmptyBalanced<H, E>(t: Table<H, E>, t': Table<H, E>)
    requires forall h, e | h in t'.slots && e in t'.timerId :: Linked(t', h, e) <==> Linked(t, h, e)
    ensures Balanced(t, [], t')
  {
  }

  lemma BalancedChain<H, E>(
    t: Table<H, E>, o1: seq<Outcome<H, E>>, t1: Table<H, E>, o2: seq<Outcome<H, E>>, t2: Table<H, E>)
    requires Balanced(t, o1, t1) && Balanced(t1, o2, t2)
    requires t2.slots.Keys <= t1.slots.Keys && t2.timerId.Keys <= t1.timerId.Keys
    ensures Balanced(t, o1 + o2, t2)
  {
    forall h, e | h in t2.slots && e in t2.timerId
      ensures Unit(Linked(t2, h, e)) - Unit(Linked(t, h, e)) == Net(o1 + o2, h, e)
    {
      assert h in t1.slots && e in t1.timerId;
    }
  }

  // ---- create, init ----

  lemma CreateSound<H, E>(t: Table<H, E>, h: H, junk: nat)
    requires Inv(t) && h !in t.slots
    ensures Inv(Created(t, h, junk)) && Balanced(t, [], Created(t, h, junk))
  {
    var t' := Created(t, h, junk);
    assert forall h', e | h' in t'.slots && e in t'.timerId :: Linked(t', h', e) <==> Linked(t, h', e);
  }

  lemma InitExact<H, E>(t: Table<H, E>, e: E)
    requires Inv(t)
    ensures
      var t' := t.(timerId := t.timerId[e := -1]);
      (Inv(t') && Balanced(t, [], t')) <==> !LinkedLive(t, e)
  {
    var t' := t.(timerId := t.timerId[e := -1]);
    EmptyBalanced(t, t');
    if LinkedLive(t, e) {
      var h :| h in t.live && Linked(t, h, e);
      var i :| 0 <= i < MAX_ENTRY_PER_HEAP && t.slots[h][i] == Some(e);
      assert t'.slots[h][i] == Some(e) && t'.timerId[e] != i;
    } else {
      forall h, i | h in t'.live && 0 <= i < MAX_ENTRY_PER_HEAP && t'.slots[h][i].Some?
        ensures t'.timerId[t'.slots[h][i].value] == i
      {
        assert Linked(t, h, t.slots[h][i].value);
      }
    }
  }

  // ---- one slot filled or emptied ----

  ghost function Filled<H, E>(t: Table<H, E>, h: H, i: nat, e: E): Table<H, E>
    requires Shaped(t) && h in t.slots && i < MAX_ENTRY_PER_HEAP
  {
    t.(slots := t.slots[h := t.slots[h][i := Some(e)]], timerId := t.timerId[e := i])
  }

  lemma FilledSound<H, E>(t: Table<H, E>, h: H, i: nat, e: E)
    requires Inv(t) && h in t.live && e in t.timerId && i < MAX_ENTRY_PER_HEAP
    requires t.slots[h][i].None? && !LinkedLive(t, e)
    ensures Inv(Filled(t, h, i, e)) && Balanced(t, [Accepted(h, e)], Filled(t, h, i, e))
  {
    var t' := Filled(t, h, i, e);
    FilledLinks(t, h, i, e);
    assert !Linked(t, h, e);
    forall h', j | h' in t.live && 0 <= j < MAX_ENTRY_PER_HEAP && t.slots[h'][j].Some?
      ensures t.slots[h'][j] != Some(e)
    {
      assert Linked(t, h', t.slots[h'][j].value);
    }
    assert PointsBack(t') && Exclusive(t');
  }

  lemma FilledLinks<H, E>(t: Table<H, E>, h: H, i: nat, e: E)
    requires Shaped(t) && h in t.slots && i < MAX_ENTRY_PER_HEAP && t.slots[h][i].None?
    ensures forall h', e' | h' in t.slots && (h' != h || e' != e) ::
              Linked(Filled(t, h, i, e), h', e') <==> Linked(t, h', e')
    ensures Linked(Filled(t, h, i, e), h, e)
  {
    var s, s' := t.slots[h], t.slots[h][i := Some(e)];
    forall e' | e' != e
      ensures Some(e') in s' <==> Some(e') in s
    {
      if Some(e') in s {
        var j :| 0 <= j < |s| && s[j] == Some(e');
        assert s'[j] == Some(e');
      }
    }
    assert s'[i] == Some(e);
  }

  ghost function Vacated<H, E>(t: Table<H, E>, h: H, e: E): Table<H, E>
    requires Shaped(t) && h in t.slots && e in t.timerId && t.timerId[e] >= 0
  {
    t.(slots := t.slots[h := Emptied(t.slots[h], t.timerId[e])], timerId := t.timerId[e := -1])
  }

  lemma VacatedSound<H, E>(t: Table<H, E>, h: H, e: E)
    requires Inv(t) && h in t.live && e in t.timerId && t.timerId[e] >= 0
    requires t.slots[h][t.timerId[e]] == Some(e)
    ensures Inv(Vacated(t, h, e))
    ensures Balanced(t, [Fired(h, e)], Vacated(t, h, e)) && Balanced(t, [Cancelled(h, e)], Vacated(t, h, e))
  {
    var t' := Vacated(t, h, e);
    VacatedLinks(t, h, e);
    assert Linked(t, h, e);
    forall h', j | h' in t'.live && 0 <= j < MAX_ENTRY_PER_HEAP && t'.slots[h'][j].Some?
      ensures t'.timerId[t'.slots[h'][j].value] == j
    {
      assert t'.slots[h'][j] == t.slots[h'][j];
    }
  }

  lemma VacatedLinks<H, E>(t: Table<H, E>, h: H, e: E)
    requires Inv(t) && h in t.live && e in t.timerId && t.timerId[e] >= 0
    requires t.slots[h][t.timerId[e]] == Some(e)
    ensures forall h', e' | h' in t.slots && (h' != h || e' != e) ::
              Linked(Vacated(t, h, e), h', e') <==> Linked(t, h', e')
    ensures !Linked(Vacated(t, h, e), h, e)
  {
    var i := t.timerId[e];
    var s, s' := t.slots[h], Emptied(t.slots[h], i);
    forall e' | e' != e
      ensures Some(e') in s' <==> Some(e') in s
    {
      if Some(e') in s {
        var j :| 0 <= j < |s| && s[j] == Some(e');
        assert s'[j] == Some(e');
      }
    }
  }

  // ---- schedule, cancel, fire, destroy ----

  lemma ScheduleExact<H, E>(t: Table<H, E>, h: H, e: E)
    requires Inv(t) && Possible(t, Schedule(h, e))
    ensures
      var t' := Scheduled(t, h, e);
      (Inv(t') && Balanced(t, Outcomes(t, Schedule(h, e)), t')) <==> Guarded(t, Schedule(h, e))
  {
    var t' := Scheduled(t, h, e);
    var i := FirstFree(t.slots[h], 0);
    if !Accepts(t, e) {
      EmptyBalanced(t, t');
    } else if LinkedLive(t, e) {
      var h0 :| h0 in t.live && Linked(t, h0, e);
      LinkedAtId(t, h0, e);
      assert t.timerId[e] == 0 && t'.slots[h0][0] == Some(e);
      if i < MAX_ENTRY_PER_HEAP {
        assert t'.slots[h][i] == Some(e);
      }
    } else if i < MAX_ENTRY_PER_HEAP {
      assert t.slots[h][i] == None;
      FilledSound(t, h, i, e);
      assert t' == Filled(t, h, i, e);
    } else {
      assert Linked(t', h, e) <==> Linked(t, h, e);
      assert Net([Accepted(h, e)], h, e) == 1;
      assert None !in t.slots[h];
    }
  }

  lemma CancelExact<H, E>(t: Table<H, E>, h: H, e: E, native: int)
    requires Inv(t) && Possible(t, Cancel(h, e, native))
    ensures
      var t' := CanceledIn(t, h, e, native);
      (Inv(t') && Balanced(t, Outcomes(t, Cancel(h, e, native)), t')) <==> Guarded(t, Cancel(h, e, native))
  {
    var t' := CanceledIn(t, h, e, native);
    if !CancelHits(t, h, e, native) {
      EmptyBalanced(t, t');
    } else if t.slots[h][t.timerId[e]] == Some(e) {
      VacatedSound(t, h, e);
    } else {
      if Linked(t, h, e) {
        LinkedAtId(t, h, e);
      }
      assert !Linked(t, h, e) && !Linked(t', h, e) by {
        assert forall j | 0 <= j < MAX_ENTRY_PER_HEAP :: t.slots[h][j] != Some(e);
      }
      assert Net([Cancelled(h, e)], h, e) == -1;
    }
  }

  lemma CanceledShaped<H, E>(t: Table<H, E>, h: H, e: E, native: int)
    requires Shaped(t) && h in t.slots && e in t.timerId
    ensures Shaped(CanceledIn(t, h, e, native))
  {
  }

  lemma FireSound<H, E>(t: Table<H, E>, e: E)
    requires Inv(t) && e in t.timerId
    ensures Inv(FiredIn(t, e)) && Balanced(t, Outcomes(t, Fire(e)), FiredIn(t, e))
  {
    var h := HeapOf(t, e, 0);
    if h.Some? {
      LinkedAtId(t, h.value, e);
      VacatedSound(t, h.value, e);
    } else {
      EmptyBalanced(t, t);
    }
  }

  lemma {:induction false} SweepSound<H, E>(t: Table<H, E>, h: H, natives: seq<int>, i: nat)
    requires Inv(t) && h in t.live && |natives| == MAX_ENTRY_PER_HEAP && i <= MAX_ENTRY_PER_HEAP
    ensures
      var r := Swept(t, h, natives, i);
      Inv(r.0) && Balanced(t, r.1, r.0) && r.0.timerId.Keys == t.timerId.Keys
      && (forall o | o in r.1 :: o.Cancelled? && o.heap == h)
    decreases MAX_ENTRY_PER_HEAP - i
  {
    if i == MAX_ENTRY_PER_HEAP {
      EmptyBalanced(t, t);
    } else if t.slots[h][i].None? {
      SweepSound(t, h, natives, i + 1);
    } else {
      var e := t.slots[h][i].value;
      var t1 := CanceledIn(t, h, e, natives[i]);
      CancelExact(t, h, e, natives[i]);
      SweepSound(t1, h, natives, i + 1);
      var rest := Swept(t1, h, natives, i + 1);
      BalancedChain(t, Outcomes(t, Cancel(h, e, natives[i])), t1, rest.1, rest.0);
    }
  }

  lemma DestroySound<H, E>(t: Table<H, E>, h: H, natives: seq<int>)
    requires Inv(t) && Possible(t, Destroy(h, natives))
    ensures
      var t' := Destroyed(t, h, natives);
      Inv(t') && Balanced(t, Outcomes(t, Destroy(h, natives)), t')
  {
    SweepSound(t, h, natives, 0);
    var swept := Swept(t, h, natives, 0).0;
    var t' := Destroyed(t, h, natives);
    assert forall h', e | h' in t'.slots && e in t'.timerId :: Linked(t', h', e) <==> Linked(swept, h', e);
    assert forall i | 0 <= i < MAX_HEAPS && t'.registry[i].Some? :: t'.registry[i] == t.registry[i];
  }

  // One operation keeps the table and the account exactly when its caller sees to the guard.
  lemma StepExact<H, E>(t: Table<H, E>, ev: Event<H, E>)
    requires Inv(t) && Possible(t, ev)
    ensures (Inv(Step(t, ev)) && Balanced(t, Outcomes(t, ev), Step(t, ev))) <==> Guarded(t, ev)
  {
    match ev
    case Create(h, junk) => CreateSound(t, h, junk);
    case Init(e) => InitExact(t, e);
    case Schedule(h, e) => ScheduleExact(t, h, e);
    case Cancel(h, e, native) => CancelExact(t, h, e, native);
    case Fire(e) => FireSound(t, e);
    case Destroy(h, natives) => DestroySound(t, h, natives);
  }

  // Create puts the heap in the registry exactly when there is room at or after the cursor; the
  // search never wraps round.
  lemma CreateRegisters<H, E>(t: Table<H, E>, h: H, junk: nat)
    requires Inv(t) && h !in t.slots
    ensures Some(h) in Created(t, h, junk).registry <==> None in t.registry[t.cursor..]
  {
    var i := FirstFree(t.registry, t.cursor);
    if i < MAX_HEAPS {
      assert t.registry[t.cursor..][i - t.cursor] == None;
      assert Created(t, h, junk).registry[i] == Some(h);
    } else {
      assert forall j | 0 <= j < MAX_HEAPS - t.cursor :: t.registry[t.cursor..][j] == t.registry[t.cursor + j];
    }
  }

  // Destroying a heap leaves every other heap registered exactly when its id is its own: a heap
  // that create could not register carries whatever id its memory held.
  lemma DestroyKeepsOthers<H, E>(t: Table<H, E>, h: H, natives: seq<int>)
    requires Inv(t) && Possible(t, Destroy(h, natives))
    ensures
      (forall i | 0 <= i < MAX_HEAPS && t.registry[i] != Some(h) ::
         Destroyed(t, h, natives).registry[i] == t.registry[i])
      <==> t.registry[t.heapId[h]] in {None, Some(h)}
  {
  }

  // With all 64 places taken, one more heap is created without one, and destroying it takes away from
  // another heap the place its memory happened to name.
  lemma FullRegistryEvicts<H, E>(t: Table<H, E>, h: H, junk: nat, natives: seq<int>)
    requires Inv(t) && h !in t.slots && None !in t.registry
    requires junk < MAX_HEAPS && |natives| == MAX_ENTRY_PER_HEAP
    ensures
      var t1 := Created(t, h, junk);
      && Inv(t1) && Some(h) !in t1.registry && Possible(t1, Destroy(h, natives))
      && t1.registry[junk].Some? && Destroyed(t1, h, natives).registry[junk].None?
  {
    CreateSound(t, h, junk);
    CreateRegisters(t, h, junk);
  }

  // Such a table is reached from the empty one by 64 creations.
  ghost function CreatedMany(n: nat): (t: Table<int, int>)
    requires n <= MAX_HEAPS
    ensures Inv(t) && t.cursor == (if n == 0 then 0 else n - 1)
    ensures forall i | 0 <= i < MAX_HEAPS :: t.registry[i] == if i < n then Some(i) else None
    ensures forall h :: h in t.slots <==> 0 <= h < n
    ensures n == MAX_HEAPS ==> None !in t.registry
  {
    if n == 0 then Table(seq(MAX_HEAPS, _ => None), 0, map[], map[], {}, map[])
    else
      var t := CreatedMany(n - 1);
      CreateSound(t, n - 1, 0);
      FirstFreeIs(t.registry, t.cursor, n - 1);
      Created(t, n - 1, 0)
  }

  lemma FirstFreeIs<T>(s: seq<Option<T>>, from: nat, i: nat)
    requires from <= i < |s| && s[i].None? && forall j | from <= j < i :: s[j].Some?
    ensures FirstFree(s, from) == i
  {
  }

  // ---- runs ----

  ghost predicate GuardedRun<H, E>(t: Table<H, E>, evs: seq<Event<H, E>>)
    requires Inv(t)
    decreases |evs|
  {
    evs == [] ||
    (&& Possible(t, evs[0]) && Guarded(t, evs[0])
     && (StepExact(t, evs[0]); GuardedRun(Step(t, evs[0]), evs[1..])))
  }

  ghost function Run<H, E>(t: Table<H, E>, evs: seq<Event<H, E>>): (r: (Table<H, E>, seq<Outcome<H, E>>))
    requires Inv(t) && GuardedRun(t, evs)
    ensures Inv(r.0)
    decreases |evs|
  {
    if evs == [] then (t, [])
    else
      StepExact(t, evs[0]);
      var rest := Run(Step(t, evs[0]), evs[1..]);
      (rest.0, Outcomes(t, evs[0]) + rest.1)
  }

  lemma StepGrows<H, E>(t: Table<H, E>, ev: Event<H, E>)
    requires Inv(t) && Possible(t, ev)
    ensures t.slots.Keys <= Step(t, ev).slots.Keys && t.timerId.Keys <= Step(t, ev).timerId.Keys
  {
    if ev.Destroy? {
      SweepSound(t, ev.heap, ev.natives, 0);
    }
  }

  // Conservation: on every heap, each entry's accepted schedules are its callbacks, its cancels,
  // and one more exactly while it is linked.
  ghost predicate Conserved<H, E>(t: Table<H, E>, history: seq<Outcome<H, E>>) {
    forall h, e | h in t.slots && e in t.timerId :: Net(history, h, e) == Unit(Linked(t, h, e))
  }

  ghost predicate Known<H, E>(t: Table<H, E>, history: seq<Outcome<H, E>>) {
    forall o | o in history :: o.heap in t.slots && o.entry in t.timerId
  }

  lemma OutcomesKnown<H, E>(t: Table<H, E>, ev: Event<H, E>)
    requires Inv(t) && Possible(t, ev)
    ensures Known(t, Outcomes(t, ev))
  {
    if ev.Destroy? {
      SweptKnown(t, ev.heap, ev.natives, 0);
    }
  }

  lemma {:induction false} SweptKnown<H, E>(t: Table<H, E>, h: H, natives: seq<int>, i: nat)
    requires Shaped(t) && h in t.slots && |natives| == MAX_ENTRY_PER_HEAP && i <= MAX_ENTRY_PER_HEAP
    ensures Known(t, Swept(t, h, natives, i).1)
    decreases MAX_ENTRY_PER_HEAP - i
  {
    if i == MAX_ENTRY_PER_HEAP {
    } else if t.slots[h][i].None? {
      SweptKnown(t, h, natives, i + 1);
    } else {
      SweptKnown(CanceledIn(t, h, t.slots[h][i].value, natives[i]), h, natives, i + 1);
    }
  }

  lemma StepConserves<H, E>(t: Table<H, E>, ev: Event<H, E>, history: seq<Outcome<H, E>>)
    requires Inv(t) && Possible(t, ev) && Guarded(t, ev)
    requires Conserved(t, history) && Known(t, history)
    ensures Conserved(Step(t, ev), history + Outcomes(t, ev))
    ensures Known(Step(t, ev), history + Outcomes(t, ev))
  {
    var t', out := Step(t, ev), Outcomes(t, ev);
    StepExact(t, ev);
    StepGrows(t, ev);
    OutcomesKnown(t, ev);
    forall h, e | h in t'.slots && e in t'.timerId
      ensures Net(history + out, h, e) == Unit(Linked(t', h, e))
    {
      if h in t.slots && e in t.timerId {
      } else {
        assert Accepted(h, e) !in history && Fired(h, e) !in history && Cancelled(h, e) !in history;
        assert !Linked(t, h, e);
      }
    }
  }

  lemma {:induction false} RunConserves<H, E>(t: Table<H, E>, evs: seq<Event<H, E>>, history: seq<Outcome<H, E>>)
    requires Inv(t) && GuardedRun(t, evs) && Conserved(t, history) && Known(t, history)
    ensures Conserved(Run(t, evs).0, history + Run(t, evs).1)
    decreases |evs|
  {
    if evs == [] {
      assert history + [] == history;
    } else {
      StepExact(t, evs[0]);
      StepConserves(t, evs[0], history);
      var t1, out := Step(t, evs[0]), Outcomes(t, evs[0]);
      RunConserves(t1, evs[1..], history + out);
      assert history + out + Run(t1, evs[1..]).1 == history + Run(t, evs).1;
    }
  }

  // ---- the count of a heap ----

  // pj_timer_heap_count
  function Count<T>(s: seq<Option<T>>): nat {
    if s == [] then 0 else (if s[0].Some? then 1 else 0) + Count(s[1..])
  }

  ghost function Tally<H, E>(out: seq<Outcome<H, E>>, h: H): int {
    if out == [] then 0
    else (if out[0].heap != h then 0 else if out[0].Accepted? then 1 else -1) + Tally(out[1..], h)
  }

  lemma {:induction false} CountUpdated<T>(s: seq<Option<T>>, i: nat, x: Option<T>)
    requires i < |s|
    ensures Count(s[i := x]) == Count(s) - Unit(s[i].Some?) + Unit(x.Some?)
  {
    if i == 0 {
      assert s[i := x][1..] == s[1..];
    } else {
      CountUpdated(s[1..], i - 1, x);
      assert s[i := x][1..] == s[1..][i - 1 := x];
    }
  }

  lemma {:induction false} CountEmpty<T>(n: nat)
    ensures Count(seq<Option<T>>(n, _ => None)) == 0
  {
    if n > 0 {
      CountEmpty<T>(n - 1);
      assert seq<Option<T>>(n, _ => None)[1..] == seq<Option<T>>(n - 1, _ => None);
    }
  }

  lemma {:induction false} TallyAppend<H, E>(o1: seq<Outcome<H, E>>, o2: seq<Outcome<H, E>>, h: H)
    ensures Tally(o1 + o2, h) == Tally(o1, h) + Tally(o2, h)
  {
    if o1 == [] {
      assert o1 + o2 == o2;
    } else {
      TallyAppend(o1[1..], o2, h);
      assert (o1 + o2)[1..] == o1[1..] + o2;
    }
  }

  ghost function CountOn<H, E>(t: Table<H, E>, h: H): nat {
    if h in t.slots then Count(t.slots[h]) else 0
  }

  lemma {:induction false} SweptCounts<H, E>(t: Table<H, E>, h: H, natives: seq<int>, i: nat, h': H)
    requires Inv(t) && h in t.live && |natives| == MAX_ENTRY_PER_HEAP && i <= MAX_ENTRY_PER_HEAP
    ensures CountOn(Swept(t, h, natives, i).0, h') == CountOn(t, h') + Tally(Swept(t, h, natives, i).1, h')
    decreases MAX_ENTRY_PER_HEAP - i
  {
    if i == MAX_ENTRY_PER_HEAP {
    } else if t.slots[h][i].None? {
      SweptCounts(t, h, natives, i + 1, h');
    } else {
      var e := t.slots[h][i].value;
      var t1 := CanceledIn(t, h, e, natives[i]);
      var out := Outcomes(t, Cancel(h, e, natives[i]));
      CancelExact(t, h, e, natives[i]);
      SweptCounts(t1, h, natives, i + 1, h');
      if CancelHits(t, h, e, natives[i]) {
        CountUpdated(t.slots[h], i, None);
      }
      TallyAppend(out, Swept(t1, h, natives, i + 1).1, h');
    }
  }

  lemma StepCounts<H, E>(t: Table<H, E>, ev: Event<H, E>, h: H)
    requires Inv(t) && Possible(t, ev) && Guarded(t, ev)
    ensures CountOn(Step(t, ev), h) == CountOn(t, h) + Tally(Outcomes(t, ev), h)
  {
    match ev
    case Create(h', junk) => CountEmpty<E>(MAX_ENTRY_PER_HEAP);
    case Init(_) =>
    case Schedule(h', e) =>
      var i := FirstFree(t.slots[h'], 0);
      if Accepts(t, e) {
        assert i < MAX_ENTRY_PER_HEAP;
        CountUpdated(t.slots[h'], i, Some(e));
      }
    case Cancel(h', e, native) =>
      if CancelHits(t, h', e, native) {
        CountUpdated(t.slots[h'], t.timerId[e], None);
      }
    case Fire(e) =>
      var h' := HeapOf(t, e, 0);
      if h'.Some? {
        LinkedAtId(t, h'.value, e);
        CountUpdated(t.slots[h'.value], t.timerId[e], None);
      }
    case Destroy(h', natives) => SweptCounts(t, h', natives, 0, h);
  }

  // On every heap, schedules accepted less callbacks and cancels is what pj_timer_heap_count adds.
  lemma {:induction false} RunCounts<H, E>(t: Table<H, E>, evs: seq<Event<H, E>>, h: H)
    requires Inv(t) && GuardedRun(t, evs)
    ensures CountOn(Run(t, evs).0, h) == CountOn(t, h) + Tally(Run(t, evs).1, h)
    decreases |evs|
  {
    if evs == [] {
    } else {
      StepExact(t, evs[0]);
      StepCounts(t, evs[0], h);
      RunCounts(Step(t, evs[0]), evs[1..], h);
      TallyAppend(Outcomes(t, evs[0]), Run(Step(t, evs[0]), evs[1..]).1, h);
    }
  }

  // ---- at most once, and never again ----

  // From an empty table, no entry has more callbacks and cancels on a heap than accepted schedules.
  lemma FiresAtMostOnce<H, E>(t: Table<H, E>, evs: seq<Event<H, E>>, h: H, e: E)
    requires Inv(t) && t.slots == map[] && GuardedRun(t, evs)
    requires h in Run(t, evs).0.slots && e in Run(t, evs).0.timerId
    ensures
      var r := Run(t, evs);
      Times(r.1, Accepted(h, e)) == Times(r.1, Fired(h, e)) + Times(r.1, Cancelled(h, e)) + Unit(Linked(r.0, h, e))
  {
    RunConserves(t, evs, []);
    assert [] + Run(t, evs).1 == Run(t, evs).1;
  }

  // e cannot fire on h: h is destroyed, or e is not in one of its slots.
  ghost predicate Silenced<H, E>(t: Table<H, E>, h: H, e: E) {
    h in t.slots && (h !in t.live || !Linked(t, h, e))
  }

  lemma StepStaysSilent<H, E>(t: Table<H, E>, ev: Event<H, E>, h: H, e: E)
    requires Inv(t) && Possible(t, ev) && Guarded(t, ev) && Silenced(t, h, e) && ev != Schedule(h, e)
    ensures Silenced(Step(t, ev), h, e) && Fired(h, e) !in Outcomes(t, ev)
  {
    match ev
    case Create(_, _) =>
    case Init(_) =>
    case Schedule(h', e') => ScheduleStaysSilent(t, h', e', h, e);
    case Cancel(h', e', native) => CancelStaysSilent(t, h', e', native, h, e);
    case Fire(e') => FireStaysSilent(t, e', h, e);
    case Destroy(h', natives) =>
      SweepSound(t, h', natives, 0);
      if h in t.live {
        SweptUnlinks(t, h', natives, 0, h, e);
      }
  }

  lemma ScheduleStaysSilent<H, E>(t: Table<H, E>, h': H, e': E, h: H, e: E)
    requires Inv(t) && Possible(t, Schedule(h', e')) && Silenced(t, h, e) && (h', e') != (h, e)
    ensures Silenced(Scheduled(t, h', e'), h, e)
  {
    var i := FirstFree(t.slots[h'], 0);
    if Accepts(t, e') && i < MAX_ENTRY_PER_HEAP {
      FilledLinks(t, h', i, e');
      assert Scheduled(t, h', e') == Filled(t, h', i, e');
    }
  }

  lemma CancelStaysSilent<H, E>(t: Table<H, E>, h': H, e': E, native: int, h: H, e: E)
    requires Inv(t) && Possible(t, Cancel(h', e', native)) && Guarded(t, Cancel(h', e', native))
    requires Silenced(t, h, e)
    ensures Silenced(CanceledIn(t, h', e', native), h, e)
  {
    if CancelHits(t, h', e', native) {
      VacatedLinks(t, h', e');
      assert CanceledIn(t, h', e', native) == Vacated(t, h', e');
    }
  }

  lemma FireStaysSilent<H, E>(t: Table<H, E>, e': E, h: H, e: E)
    requires Inv(t) && e' in t.timerId && Silenced(t, h, e)
    ensures Silenced(FiredIn(t, e'), h, e) && Fired(h, e) !in Outcomes(t, Fire(e'))
  {
    var h' := HeapOf(t, e', 0);
    if h'.Some? {
      LinkedAtId(t, h'.value, e');
      VacatedLinks(t, h'.value, e');
      assert FiredIn(t, e') == Vacated(t, h'.value, e');
    }
  }

  lemma {:induction false} SweptUnlinks<H, E>(t: Table<H, E>, h: H, natives: seq<int>, i: nat, h': H, e: E)
    requires Inv(t) && h in t.live && |natives| == MAX_ENTRY_PER_HEAP && i <= MAX_ENTRY_PER_HEAP
    requires h' in t.slots && !Linked(t, h', e)
    ensures !Linked(Swept(t, h, natives, i).0, h', e)
    decreases MAX_ENTRY_PER_HEAP - i
  {
    if i == MAX_ENTRY_PER_HEAP {
    } else if t.slots[h][i].None? {
      SweptUnlinks(t, h, natives, i + 1, h', e);
    } else {
      var e' := t.slots[h][i].value;
      var t1 := CanceledIn(t, h, e', natives[i]);
      CancelExact(t, h, e', natives[i]);
      if CancelHits(t, h, e', natives[i]) {
        VacatedLinks(t, h, e');
        assert t1 == Vacated(t, h, e');
      }
      SweptUnlinks(t1, h, natives, i + 1, h', e);
    }
  }

  // Once cancelled, fired, or on a destroyed heap, an entry never fires there again unless it is
  // scheduled there anew. A destroyed heap takes no schedule, whatever its native cancels said.
  lemma {:induction false} NeverFiresAgain<H, E>(t: Table<H, E>, evs: seq<Event<H, E>>, h: H, e: E)
    requires Inv(t) && GuardedRun(t, evs) && Silenced(t, h, e)
    requires Schedule(h, e) !in evs
    ensures Fired(h, e) !in Run(t, evs).1
    decreases |evs|
  {
    if evs == [] {
    } else {
      StepExact(t, evs[0]);
      StepStaysSilent(t, evs[0], h, e);
      NeverFiresAgain(Step(t, evs[0]), evs[1..], h, e);
    }
  }

  lemma {:induction false} DestroyedStaysSilent<H, E>(t: Table<H, E>, evs: seq<Event<H, E>>, h: H, e: E)
    requires Inv(t) && GuardedRun(t, evs) && h in t.slots && h !in t.live
    ensures Fired(h, e) !in Run(t, evs).1 && Schedule(h, e) !in evs
    decreases |evs|
  {
    if evs == [] {
    } else {
      StepExact(t, evs[0]);
      StepStaysSilent(t, evs[0], h, e);
      var t1 := Step(t, evs[0]);
      assert h !in t1.live && h in t1.slots;
      DestroyedStaysSilent(t1, evs[1..], h, e);
    }
  }

  // A successful cancel, a callback and a destroy all silence.
  lemma TakenOutIsSilent<H, E>(t: Table<H, E>, ev: Event<H, E>, h: H, e: E)
    requires Inv(t) && Possible(t, ev) && Guarded(t, ev)
    requires Cancelled(h, e) in Outcomes(t, ev) || Fired(h, e) in Outcomes(t, ev)
             || (ev.Destroy? && ev.heap == h)
    ensures Silenced(Step(t, ev), h, e)
  {
    match ev
    case Cancel(_, _, _) => VacatedLinks(t, h, e);
    case Fire(_) =>
      LinkedAtId(t, h, e);
      VacatedLinks(t, h, e);
    case Destroy(h', natives) => SweepSound(t, h', natives, 0);
    case _ =>
  }

  // ---- what the guards keep out ----

  // An entry in slot 0 passes the guard and lands in a second slot.
  lemma SlotZeroCanDouble()
    ensures
      var none: seq<Option<int>> := seq(MAX_ENTRY_PER_HEAP, _ => None);
      var t := Table(seq(MAX_HEAPS, _ => None)[0 := Some(7)], 0, map[7 := 0],
                     map[7 := none[0 := Some(1)]], {7}, map[1 := 0]);
      && Inv(t) && Possible(t, Schedule(7, 1)) && Accepts(t, 1)
      && var t' := Scheduled(t, 7, 1); t'.slots[7][0] == t'.slots[7][1] == Some(1)
  {
  }

  // A full heap answers success and forgets the entry.
  lemma FullHeapForgets<H, E>(t: Table<H, E>, h: H, e: E)
    requires Inv(t) && Possible(t, Schedule(h, e))
    requires !LinkedLive(t, e) && Accepts(t, e) && None !in t.slots[h]
    ensures Outcomes(t, Schedule(h, e)) == [Accepted(h, e)] && !LinkedLive(Scheduled(t, h, e), e)
    ensures Step(t, Schedule(h, e)) == t.(timerId := t.timerId[e := -1])
  {
    assert Scheduled(t, h, e).slots == t.slots;
  }
}
