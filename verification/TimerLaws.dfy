/**
  What the timer operations are for: a schedule puts the entry in, a callback or a counted cancel
  takes it out, a destroy empties the heap, and nothing else moves.
 */
module TimerLaws {
  import opened Basics
  import opened TimerSpec
  import opened TimerSafety

  // The registry has 64 places, each heap 128 slots; a new heap has a place of its own and empty slots.
  lemma CreateLaw<H, E>(t: Table<H, E>, h: H, junk: nat)
    requires Inv(t) && h !in t.slots
    ensures
      var t' := Step(t, Create(h, junk));
      && |t'.registry| == 64 && |t'.slots[h]| == 128 && (forall i | 0 <= i < 128 :: t'.slots[h][i] == None)
      && t'.live == t.live + {h} && t'.timerId == t.timerId && (forall g | g in t.slots :: t'.slots[g] == t.slots[g])
      && (forall i | t.cursor <= i < 64 && t.registry[i].None? && (forall j | t.cursor <= j < i :: t.registry[j].Some?) ::
            t'.registry == t.registry[i := Some(h)] && t'.heapId == t.heapId[h := i] && t'.cursor == i)
      && ((forall i | t.cursor <= i < 64 :: t.registry[i].Some?) ==>
            t'.registry == t.registry && t'.heapId == t.heapId[h := junk] && t'.cursor == t.cursor)
  {
  }

  // An initialised entry is accepted by every live heap.
  lemma InitAccepts<H, E>(t: Table<H, E>, e: E, h: H)
    requires Inv(t) && !LinkedLive(t, e) && h in t.live
    ensures
      var t' := Step(t, Init(e));
      Inv(t') && Possible(t', Schedule(h, e)) && Outcomes(t', Schedule(h, e)) == [Accepted(h, e)]
  {
    InitExact(t, e);
  }

  // The accepted entry sits in the lowest empty slot, which it names; everything else stays.
  lemma ScheduleTakesIn<H, E>(t: Table<H, E>, h: H, e: E, i: nat)
    requires Inv(t) && Possible(t, Schedule(h, e)) && t.timerId[e] < 1
    requires i < 128 && t.slots[h][i].None? && forall j | 0 <= j < i :: t.slots[h][j].Some?
    ensures
      var t' := Step(t, Schedule(h, e));
      && Outcomes(t, Schedule(h, e)) == [Accepted(h, e)] && Linked(t', h, e)
      && t' == t.(slots := t.slots[h := t.slots[h][i := Some(e)]], timerId := t.timerId[e := i])
  {
    assert t.slots[h][i := Some(e)][i] == Some(e);
  }

  // An entry that names slot 1 or above is refused.
  lemma ScheduleRefuses<H, E>(t: Table<H, E>, h: H, e: E)
    requires Inv(t) && Possible(t, Schedule(h, e)) && t.timerId[e] >= 1
    ensures Outcomes(t, Schedule(h, e)) == [] && Step(t, Schedule(h, e)) == t
  {
  }

  lemma SlotIsItsId<H, E>(t: Table<H, E>, h: H, e: E, i: nat)
    requires Inv(t) && h in t.live && i < MAX_ENTRY_PER_HEAP && t.slots[h][i] == Some(e)
    ensures t.timerId[e] == i
    ensures Vacated(t, h, e) == t.(slots := t.slots[h := t.slots[h][i := None]], timerId := t.timerId[e := -1])
  {
  }

  // Cancelling a waiting entry, whichever slot it sits in, takes it out when the alarm service agrees.
  lemma CancelTakesOut<H, E>(t: Table<H, E>, h: H, e: E, native: int, i: nat)
    requires Inv(t) && h in t.live && i < MAX_ENTRY_PER_HEAP && t.slots[h][i] == Some(e)
    ensures
      var t' := Step(t, Cancel(h, e, native));
      if native > 0 then
        && Outcomes(t, Cancel(h, e, native)) == [Cancelled(h, e)] && !Linked(t', h, e)
        && t' == t.(slots := t.slots[h := t.slots[h][i := None]], timerId := t.timerId[e := -1])
      else Outcomes(t, Cancel(h, e, native)) == [] && t' == t
  {
    SlotIsItsId(t, h, e, i);
    VacatedLinks(t, h, e);
  }

  // Cancelling an entry that waits nowhere does nothing.
  lemma CancelOfIdleEntry<H, E>(t: Table<H, E>, h: H, e: E, native: int)
    requires Inv(t) && Possible(t, Cancel(h, e, native)) && t.timerId[e] == -1
    ensures Outcomes(t, Cancel(h, e, native)) == [] && Step(t, Cancel(h, e, native)) == t
  {
  }

  // The callback of an entry that waits on a registered heap runs, and the entry leaves its slot.
  lemma FireTakesOut<H, E>(t: Table<H, E>, h: H, e: E, i: nat)
    requires Inv(t) && Some(h) in t.registry && i < MAX_ENTRY_PER_HEAP && t.slots[h][i] == Some(e)
    ensures
      && Outcomes(t, Fire(e)) == [Fired(h, e)] && !Linked(Step(t, Fire(e)), h, e)
      && Step(t, Fire(e)) == t.(slots := t.slots[h := t.slots[h][i := None]], timerId := t.timerId[e := -1])
  {
    assert Linked(t, h, e);
    var found := HeapOf(t, e, 0).value;
    LinkedAtId(t, found, e);
    SlotIsItsId(t, h, e, i);
    assert found == h;
    VacatedLinks(t, h, e);
  }

  // Without such a heap no callback runs.
  lemma FireOfIdleEntry<H, E>(t: Table<H, E>, e: E)
    requires Inv(t) && e in t.timerId
    requires forall h | Some(h) in t.registry :: !Linked(t, h, e)
    ensures Outcomes(t, Fire(e)) == [] && Step(t, Fire(e)) == t
  {
  }

  lemma SweepStep<H, E>(t: Table<H, E>, h: H, natives: seq<int>, i: nat) returns (t1: Table<H, E>)
    requires Inv(t) && h in t.live && |natives| == MAX_ENTRY_PER_HEAP && i < MAX_ENTRY_PER_HEAP
    ensures Inv(t1) && t1.live == t.live && t1.slots.Keys == t.slots.Keys
    ensures Swept(t, h, natives, i).0 == Swept(t1, h, natives, i + 1).0
    ensures t1.slots == if natives[i] > 0 then t.slots[h := t.slots[h][i := None]] else t.slots
  {
    if t.slots[h][i].None? {
      t1 := t;
      assert t.slots[h][i := None] == t.slots[h];
      assert t.slots[h := t.slots[h]] == t.slots;
    } else {
      var e := t.slots[h][i].value;
      SlotIsItsId(t, h, e, i);
      CancelExact(t, h, e, natives[i]);
      t1 := CanceledIn(t, h, e, natives[i]);
    }
  }

  // Sweeping empties exactly the slots whose native cancel succeeds.
  lemma {:induction false} SweptLaw<H, E>(t: Table<H, E>, h: H, natives: seq<int>, i: nat, g: H, j: nat)
    requires Inv(t) && h in t.live && |natives| == MAX_ENTRY_PER_HEAP && i <= MAX_ENTRY_PER_HEAP
    requires g in t.slots && j < MAX_ENTRY_PER_HEAP
    ensures Swept(t, h, natives, i).0.slots[g][j]
         == if g == h && j >= i && natives[j] > 0 then None else t.slots[g][j]
    decreases MAX_ENTRY_PER_HEAP - i
  {
    if i < MAX_ENTRY_PER_HEAP {
      var t1 := SweepStep(t, h, natives, i);
      SweptLaw(t1, h, natives, i + 1, g, j);
    }
  }

  // Destroying a heap empties exactly those of its slots whose native cancel succeeds; the slots of
  // every other heap stay.
  lemma DestroyLaw<H, E>(t: Table<H, E>, h: H, natives: seq<int>, g: H, j: nat)
    requires Inv(t) && Possible(t, Destroy(h, natives)) && g in t.slots && j < 128
    ensures Step(t, Destroy(h, natives)).slots[g][j]
         == if g == h && natives[j] > 0 then None else t.slots[g][j]
  {
    SweptLaw(t, h, natives, 0, g, j);
  }

  // It also ends the heap, empties its place, and moves the cursor on by one.
  lemma DestroyEnds<H, E>(t: Table<H, E>, h: H, natives: seq<int>)
    requires Inv(t) && Possible(t, Destroy(h, natives))
    ensures
      var t' := Step(t, Destroy(h, natives));
      && t'.live == t.live - {h} && t'.registry == t.registry[t.heapId[h] := None] && t'.heapId == t.heapId
      && t'.cursor == (if t.cursor == 63 then 0 else t.cursor + 1)
  {
  }

  lemma {:induction false} CountOfNones<T>(s: seq<Option<T>>)
    requires forall i | 0 <= i < |s| :: s[i] == None
    ensures Count(s) == 0
  {
    if s != [] {
      CountOfNones(s[1..]);
    }
  }

  // When the alarm service agrees throughout, nothing is left on the heap.
  lemma DestroyEmpties<H, E>(t: Table<H, E>, h: H, natives: seq<int>)
    requires Inv(t) && Possible(t, Destroy(h, natives)) && forall i | 0 <= i < |natives| :: natives[i] > 0
    ensures CountOn(Step(t, Destroy(h, natives)), h) == 0
  {
    var slots := Step(t, Destroy(h, natives)).slots[h];
    forall j | 0 <= j < |slots|
      ensures slots[j] == None
    {
      DestroyLaw(t, h, natives, h, j);
    }
    CountOfNones(slots);
  }

  // Initialised, scheduled, and then fired or cancelled: one callback or one counted cancel, after
  // which the heap is as before.
  lemma LifeOfAnEntry<H, E>(t: Table<H, E>, h: H, e: E, native: int, i: nat)
    requires Inv(t) && !LinkedLive(t, e) && Some(h) in t.registry && native > 0
    requires i < 128 && t.slots[h][i].None? && forall j | 0 <= j < i :: t.slots[h][j].Some?
    ensures
      var t1 := Step(t, Init(e));
      && Inv(t1) && Possible(t1, Schedule(h, e))
      && var t2 := Step(t1, Schedule(h, e));
         && Inv(t2)
         && Outcomes(t1, Schedule(h, e)) == [Accepted(h, e)]
         && Outcomes(t2, Fire(e)) == [Fired(h, e)] && Outcomes(t2, Cancel(h, e, native)) == [Cancelled(h, e)]
         && Step(t2, Fire(e)) == Step(t2, Cancel(h, e, native)) == t1
  {
    InitAccepts(t, e, h);
    var t1 := Step(t, Init(e));
    assert !LinkedLive(t1, e);
    ScheduleExact(t1, h, e);
    ScheduleTakesIn(t1, h, e, i);
    var t2 := Step(t1, Schedule(h, e));
    FireTakesOut(t2, h, e, i);
    CancelTakesOut(t2, h, e, native, i);
    assert t2.slots[h][i := None] == t1.slots[h];
  }
}
