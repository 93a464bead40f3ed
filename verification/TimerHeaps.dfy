/**
  The timer operations as the C code runs them: fixed arrays of slots changed in place and
  scanned by loops. Each is proved to take the table `View()` where `TimerSpec` says. Locks,
  logging and thread registration are left out; the alarm service's answers are parameters.
 */
module TimerHeaps {
  import opened Basics
  import T = TimerSpec
  import TimerSafety

  class TimerEntry {
    var timerId: int

    // Memory for an entry, with whatever it held.
    constructor (junk: int)
      ensures timerId == junk
    {
      timerId := junk;
    }
  }

  class TimerHeap {
    var heapId: nat
    const entries: array<Option<TimerEntry>>

    // A heap as pj_timer_heap_create fills it in; the id is still what the pool memory held.
    constructor (junk: nat)
      ensures heapId == junk && fresh(entries)
      ensures entries[..] == seq(T.MAX_ENTRY_PER_HEAP, _ => None)
    {
      heapId := junk;
      entries := new Option<TimerEntry>[T.MAX_ENTRY_PER_HEAP](_ => None);
    }

    // The loop of schedule_entry: the first empty slot takes the entry.
    method Take(entry: TimerEntry) returns (timerSlot: int)
      requires entries.Length == T.MAX_ENTRY_PER_HEAP
      modifies entries
      ensures
        var i := T.FirstFree(old(entries[..]), 0);
        if i < T.MAX_ENTRY_PER_HEAP
        then timerSlot == i && entries[..] == old(entries[..])[i := Some(entry)]
        else timerSlot == -1 && entries[..] == old(entries[..])
    {
      timerSlot := -1;
      var i := 0;
      while i < T.MAX_ENTRY_PER_HEAP
        invariant 0 <= i <= T.MAX_ENTRY_PER_HEAP
        invariant T.FirstFree(old(entries[..]), 0) == T.FirstFree(old(entries[..]), i)
        invariant entries[..] == old(entries[..]) && timerSlot == -1
      {
        if entries[i].None? {
          entries[i] := Some(entry);
          timerSlot := i;
          break;
        }
        i := i + 1;
      }
    }

    // pj_timer_heap_count
    method Count() returns (count: nat)
      ensures count == TimerSafety.Count(entries[..])
    {
      count := 0;
      var i := entries.Length;
      while i > 0
        invariant 0 <= i <= entries.Length
        invariant count == TimerSafety.Count(entries[i..])
      {
        i := i - 1;
        if entries[i].Some? {
          count := count + 1;
        }
        assert entries[i..] == [entries[i]] + entries[i + 1..];
      }
      assert entries[0..] == entries[..];
    }
  }

  class TimerModule {
    const sHeaps: array<Option<TimerHeap>>
    var sCurrentHeap: nat
    ghost var heaps: set<TimerHeap>     // every heap created so far
    ghost var live: set<TimerHeap>
    ghost var known: set<TimerEntry>    // every entry initialised so far

    ghost function View(): T.Table<TimerHeap, TimerEntry>
      reads this, sHeaps, heaps, set h | h in heaps :: h.entries, known
    {
      T.Table(sHeaps[..], sCurrentHeap, HeapIds(), Slots(), live, TimerIds())
    }

    ghost function HeapIds(): map<TimerHeap, nat>
      reads this, heaps
    {
      map h | h in heaps :: h.heapId
    }

    ghost function Slots(): map<TimerHeap, seq<Option<TimerEntry>>>
      reads this, set h | h in heaps :: h.entries
    {
      map h | h in heaps :: h.entries[..]
    }

    ghost function TimerIds(): map<TimerEntry, int>
      reads this, known
    {
      map e | e in known :: e.timerId
    }

    // No two heaps share their slots.
    ghost predicate Apart()
      reads this, heaps
    {
      && (forall h | h in heaps :: h.entries as object != sHeaps)
      && (forall h1, h2 | h1 in heaps && h2 in heaps && h1 != h2 :: h1.entries != h2.entries)
    }

    constructor ()
      ensures Apart() && T.Inv(View()) && View().slots == map[] && View().timerId == map[]
      ensures fresh(sHeaps)
    {
      sHeaps := new Option<TimerHeap>[T.MAX_HEAPS](_ => None);
      sCurrentHeap := 0;
      heaps, live, known := {}, {}, {};
    }

    // pj_timer_heap_create
    method Create(junk: nat) returns (ht: TimerHeap)
      requires Apart() && T.Shaped(View())
      modifies this, sHeaps
      ensures fresh(ht) && fresh(ht.entries) && Apart()
      ensures heaps == old(heaps) + {ht} && known == old(known)
      ensures View() == T.Created(old(View()), ht, junk)
    {
      ht := new TimerHeap(junk);
      EnterRegistry(ht);
      Enroll(ht);
    }

    method EnterRegistry(ht: TimerHeap)
      requires T.Shaped(View()) && ht !in heaps && ht.entries as object != sHeaps
      requires forall h | h in heaps :: h.entries as object != sHeaps
      modifies this`sCurrentHeap, sHeaps, ht`heapId
      ensures
        var t := old(View());
        var i := T.FirstFree(t.registry, t.cursor);
        if i < T.MAX_HEAPS
        then ht.heapId == i && View() == t.(registry := t.registry[i := Some(ht)], cursor := i)
        else ht.heapId == old(ht.heapId) && View() == t
    {
      Register(ht);
    }

    // The bookkeeping of a new heap.
    ghost method Enroll(ht: TimerHeap)
      requires Apart() && ht !in heaps && ht.entries as object != sHeaps
      requires forall h | h in heaps :: h.entries != ht.entries
      modifies this`heaps, this`live
      ensures Apart() && heaps == old(heaps) + {ht}
      ensures View() == old(View()).(
        slots := old(View()).slots[ht := ht.entries[..]],
        heapId := old(View()).heapId[ht := ht.heapId],
        live := old(live) + {ht})
    {
      ghost var before := View();
      heaps, live := heaps + {ht}, live + {ht};
      assert View().slots == before.slots[ht := ht.entries[..]];
      assert View().heapId == before.heapId[ht := ht.heapId];
    }

    // The loop of pj_timer_heap_create: the first empty place from the cursor on.
    method Register(ht: TimerHeap)
      requires sHeaps.Length == T.MAX_HEAPS && sCurrentHeap < T.MAX_HEAPS
      modifies this`sCurrentHeap, sHeaps, ht`heapId
      ensures
        var i := T.FirstFree(old(sHeaps[..]), old(sCurrentHeap));
        if i < T.MAX_HEAPS
        then ht.heapId == i && sCurrentHeap == i && sHeaps[..] == old(sHeaps[..])[i := Some(ht)]
        else ht.heapId == old(ht.heapId) && sCurrentHeap == old(sCurrentHeap) && sHeaps[..] == old(sHeaps[..])
    {
      ghost var registry, cursor := sHeaps[..], sCurrentHeap;
      var i := sCurrentHeap;
      while i < T.MAX_HEAPS
        invariant cursor <= i <= T.MAX_HEAPS
        invariant T.FirstFree(registry, cursor) == T.FirstFree(registry, i)
        invariant sHeaps[..] == registry && sCurrentHeap == cursor && ht.heapId == old(ht.heapId)
      {
        if sHeaps[i].None? {
          ht.heapId := i;
          sHeaps[i] := Some(ht);
          sCurrentHeap := i;
          break;
        }
        i := i + 1;
      }
    }

    // pj_timer_entry_init, for a new entry or one used before; sound while no live heap holds it.
    method InitEntry(entry: TimerEntry)
      modifies entry, this`known
      ensures known == old(known) + {entry}
      ensures View() == old(View()).(timerId := old(View()).timerId[entry := -1])
      ensures old(Apart()) ==> Apart()
      ensures old(T.Inv(View())) ==>
                View() == old(T.Step(View(), T.Init(entry)))
                && (old(!T.LinkedLive(View(), entry)) ==> T.Inv(View()))
    {
      ghost var before := View();
      entry.timerId := -1;
      known := known + {entry};
      assert TimerIds() == before.timerId[entry := -1];
      if T.Inv(before) {
        TimerSafety.InitExact(before, entry);
      }
    }

    // entry->_timer_id = id
    method Mark(entry: TimerEntry, id: int)
      requires entry in known
      modifies entry
      ensures View() == old(View()).(timerId := old(View()).timerId[entry := id])
    {
      entry.timerId := id;
      assert TimerIds() == old(TimerIds())[entry := id];
    }

    // schedule_entry
    method ScheduleEntry(ht: TimerHeap, entry: TimerEntry)
      requires Apart() && T.Shaped(View()) && ht in live && entry in known && entry.timerId < 1
      modifies ht.entries, entry
      ensures Apart()
      ensures View() == T.Scheduled(old(View()), ht, entry)
    {
      assert View().slots[ht] == ht.entries[..];
      var timerSlot := ht.Take(entry);
      assert Slots() == old(Slots())[ht := ht.entries[..]];
      Mark(entry, timerSlot);
    }

    // pj_timer_heap_schedule
    method Schedule(ht: TimerHeap, entry: TimerEntry) returns (accepted: bool)
      requires Apart() && T.Shaped(View()) && ht in live && entry in known
      modifies ht.entries, entry
      ensures Apart()
      ensures View() == T.Scheduled(old(View()), ht, entry)
      ensures accepted == old(T.Accepts(View(), entry))
    {
      if entry.timerId >= 1 {
        return false;
      }
      ScheduleEntry(ht, entry);
      accepted := true;
    }

    // What cancel and fire share: the slot is emptied and the entry told.
    method Release(ht: TimerHeap, entry: TimerEntry)
      requires Apart() && T.Shaped(View()) && ht in heaps && entry in known && 0 <= entry.timerId
      modifies ht.entries, entry
      ensures
        var t := old(View());
        View() == t.(slots := t.slots[ht := T.Emptied(t.slots[ht], t.timerId[entry])],
                     timerId := t.timerId[entry := -1])
    {
      assert View().slots[ht] == ht.entries[..] && View().timerId[entry] == entry.timerId;
      ht.entries[entry.timerId] := None;
      assert Slots() == old(Slots())[ht := ht.entries[..]];
      Mark(entry, -1);
    }

    // cancel, with the close hook left out
    method Cancel(ht: TimerHeap, entry: TimerEntry, native: int) returns (count: int)
      requires Apart() && T.Shaped(View()) && ht in heaps && entry in known
      modifies ht.entries, entry
      ensures Apart()
      ensures View() == T.CanceledIn(old(View()), ht, entry, native)
      ensures count > 0 <==> old(T.CancelHits(View(), ht, entry, native))
      ensures native > 0 && ht in live && old(T.Inv(View()) && T.Linked(View(), ht, entry)) ==>
                count == native && entry.timerId == -1
    {
      if T.Inv(View()) && ht in live && T.Linked(View(), ht, entry) {
        T.LinkedAtId(View(), ht, entry);
      }
      assert View().slots[ht] == ht.entries[..] && View().timerId[entry] == entry.timerId;
      if entry.timerId < 0 || entry.timerId > T.MAX_ENTRY_PER_HEAP {
        return 0;
      }
      if ht.entries[entry.timerId].None? {
        return 0;
      }
      if native > 0 {
        Release(ht, entry);
      }
      return native;
    }

    // pj_timer_heap_destroy
    method Destroy(ht: TimerHeap, natives: seq<int>)
      requires Apart() && T.Inv(View()) && T.Possible(View(), T.Destroy(ht, natives))
      modifies this, sHeaps, ht.entries, known
      ensures Apart() && heaps == old(heaps) && known == old(known)
      ensures View() == T.Destroyed(old(View()), ht, natives)
    {
      Sweep(ht, natives);
      Unregister(ht);
    }

    method Unregister(ht: TimerHeap)
      requires Apart() && T.Shaped(View()) && ht in heaps && ht.heapId < T.MAX_HEAPS
      modifies this`sCurrentHeap, this`live, sHeaps
      ensures Apart()
      ensures View() == T.Forgotten(old(View()), ht)
    {
      ghost var before := View();
      sCurrentHeap := sCurrentHeap + 1;
      sCurrentHeap := sCurrentHeap % T.MAX_HEAPS;
      sHeaps[ht.heapId] := None;
      live := live - {ht};
      assert View().slots == before.slots;
      assert View().heapId == before.heapId && View().timerId == before.timerId;
      assert sHeaps[..] == before.registry[before.heapId[ht] := None];
    }

    // The loop of pj_timer_heap_destroy.
    method Sweep(ht: TimerHeap, natives: seq<int>)
      requires Apart() && T.Shaped(View()) && ht in heaps && |natives| == T.MAX_ENTRY_PER_HEAP
      modifies ht.entries, known
      ensures Apart()
      ensures View() == T.Swept(old(View()), ht, natives, 0).0
    {
      ghost var before := View();
      var i := 0;
      while i < T.MAX_ENTRY_PER_HEAP
        invariant 0 <= i <= T.MAX_ENTRY_PER_HEAP
        invariant Apart() && T.Shaped(View())
        invariant T.Swept(before, ht, natives, 0).0 == T.Swept(View(), ht, natives, i).0
      {
        SweepSlot(ht, natives, i);
        i := i + 1;
      }
    }

    method SweepSlot(ht: TimerHeap, natives: seq<int>, i: nat)
      requires Apart() && T.Shaped(View()) && ht in heaps
      requires |natives| == T.MAX_ENTRY_PER_HEAP && i < T.MAX_ENTRY_PER_HEAP
      modifies ht.entries, known
      ensures Apart() && T.Shaped(View())
      ensures T.Swept(old(View()), ht, natives, i).0 == T.Swept(View(), ht, natives, i + 1).0
    {
      assert View().slots[ht] == ht.entries[..];
      if ht.entries[i].Some? {
        ghost var before := View();
        var entry := ht.entries[i].value;
        assert before.slots[ht][i].value in before.timerId;
        var count := Cancel(ht, entry, natives[i]);
        TimerSafety.CanceledShaped(before, ht, entry, natives[i]);
      }
    }

    // The search of pj_timer_fire.
    method FindHeap(entry: TimerEntry) returns (ht: Option<TimerHeap>)
      requires T.Shaped(View())
      ensures ht == T.HeapOf(View(), entry, 0)
    {
      ht := None;
      var i := 0;
      while i < T.MAX_HEAPS
        invariant 0 <= i <= T.MAX_HEAPS
        invariant T.HeapOf(View(), entry, 0) == T.HeapOf(View(), entry, i)
      {
        var tHeap := sHeaps[i];
        if tHeap.Some? {
          assert View().registry[i].value in View().live;
          var found := Holds(tHeap.value, entry);
          if found {
            return tHeap;
          }
        }
        i := i + 1;
      }
    }

    method Holds(ht: TimerHeap, entry: TimerEntry) returns (found: bool)
      ensures found <==> Some(entry) in ht.entries[..]
    {
      var j := 0;
      while j < ht.entries.Length
        invariant 0 <= j <= ht.entries.Length
        invariant Some(entry) !in ht.entries[..j]
      {
        if ht.entries[j] == Some(entry) {
          return true;
        }
        j := j + 1;
      }
      assert ht.entries[..j] == ht.entries[..];
      return false;
    }

    // pj_timer_fire, find and release in one step; the callback runs on the heap returned.
    method Fire(entry: TimerEntry) returns (ht: Option<TimerHeap>)
      requires Apart() && T.Inv(View()) && entry in known
      modifies entry, set h | h in heaps :: h.entries
      ensures Apart()
      ensures View() == T.FiredIn(old(View()), entry)
      ensures ht == old(T.HeapOf(View(), entry, 0))
    {
      ht := FindHeap(entry);
      if ht.Some? {
        T.LinkedAtId(View(), ht.value, entry);
        Release(ht.value, entry);
      }
    }
  }
}
