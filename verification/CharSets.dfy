/**
 * Character input specifications of the pjlib-util scanner, in their two interchangeable forms: up
 * to 32 sets sliced over the bits of one shared buffer, and one private array for each set.
 */
module CharSets {
  import opened Basics

  const SIZE: nat := 256
  const MAX_INDEX: nat := 32

  /** An id below 32, the only ones a specification is usable with. */
  type Id = bv5

  type Char = c: nat | c < SIZE

  type Words = s: seq<bv32> | |s| == SIZE witness seq(SIZE, _ => 0)

  /** What both forms stand for: which of the 256 characters belong to a specification. */
  type Members = s: seq<bool> | |s| == SIZE witness seq(SIZE, _ => false)

  // ---------- one word ----------

  function Bit(id: Id): bv32 {
    1 << id
  }

  predicate Has(word: bv32, id: Id) {
    word & Bit(id) != 0
  }

  // The word with the bit of id set or cleared: SET and CLR.
  function Marked(w: bv32, id: Id, on: bool): bv32 {
    if on then w | Bit(id) else w & !Bit(id)
  }

  lemma SetHasOther(w: bv32, i: Id, j: Id)
    requires i != j
    ensures Has(w | Bit(i), j) <==> Has(w, j)
  {}

  lemma SetHasItself(w: bv32, i: Id)
    ensures Has(w | Bit(i), i)
  {}

  lemma ClearHas(w: bv32, i: Id, j: Id)
    ensures Has(w & !Bit(i), j) <==> Has(w, j) && i != j
  {}

  lemma MarkedHas(w: bv32, i: Id, on: bool, j: Id)
    ensures Has(Marked(w, i, on), j) == if i == j then on else Has(w, j)
  {
    if !on {
      ClearHas(w, i, j);
    } else if i == j {
      SetHasItself(w, i);
    } else {
      SetHasOther(w, i, j);
    }
  }

  lemma HasIsWholeBit(w: bv32, i: Id)
    requires Has(w, i)
    ensures w & Bit(i) == Bit(i)
  {}

  lemma SetSame(w: bv32, i: Id)
    requires w & Bit(i) == Bit(i)
    ensures w | Bit(i) == w
  {}

  lemma ClearSame(w: bv32, i: Id)
    requires !Has(w, i)
    ensures w & !Bit(i) == w
  {}

  lemma MarkedSame(w: bv32, i: Id)
    ensures Marked(w, i, Has(w, i)) == w
  {
    if Has(w, i) {
      HasIsWholeBit(w, i);
      SetSame(w, i);
    } else {
      ClearSame(w, i);
    }
  }

  // ---------- the shared buffer as a value ----------

  function Column(buf: Words, id: Id): Members {
    seq(SIZE, c requires 0 <= c < SIZE => Has(buf[c], id))
  }

  function Painted(buf: Words, id: Id, m: Members): Words {
    seq(SIZE, c requires 0 <= c < SIZE => Marked(buf[c], id, m[c]))
  }

  /** Writing one specification's members never changes another's. */
  lemma PaintedColumn(buf: Words, i: Id, m: Members, j: Id)
    ensures Column(Painted(buf, i, m), j) == if i == j then m else Column(buf, j)
  {
    forall c | 0 <= c < SIZE
      ensures Column(Painted(buf, i, m), j)[c] == if i == j then m[c] else Column(buf, j)[c]
    {
      MarkedHas(buf[c], i, m[c], j);
    }
  }

  lemma OneWordPainted(buf: Words, id: Id, c: Char, on: bool)
    ensures buf[c := Marked(buf[c], id, on)] == Painted(buf, id, Column(buf, id)[c := on])
  {
    var painted := Painted(buf, id, Column(buf, id)[c := on]);
    forall k | 0 <= k < SIZE && k != c
      ensures painted[k] == buf[k]
    {
      MarkedSame(buf[k], id);
    }
  }

  /** The lowest id at or above i that is not in use; None when there is none. */
  function FirstFree(mask: bv32, i: Id): (r: Option<Id>)
    ensures r.Some? ==> !Has(mask, r.value)
    decreases 31 - i
  {
    if !Has(mask, i) then Some(i) else if i == 31 then None else FirstFree(mask, i + 1)
  }

  function Number(id: Id): nat {
    id as nat
  }

  lemma Numbers(i: Id, j: Id)
    ensures Number(i) < MAX_INDEX
    ensures Number(i) == Number(j) ==> i == j
    ensures i != 31 ==> Number(i + 1) == Number(i) + 1
    ensures i == 31 ==> Number(i) == 31
  {}

  // ---------- operations ----------

  /** The scanner's operations on its specifications, numbered in the order of their creation. */
  datatype Op =
    | Init
    | Dup(source: nat)
    | Set(spec: nat, c: Char)
    | Clr(spec: nat, c: Char)
    | AddCis(spec: nat, source: nat)
    | Invert(spec: nat)

  predicate Creates(op: Op) {
    op.Init? || op.Dup?
  }

  predicate Names(op: Op, n: nat) {
    match op
    case Init => true
    case Dup(from) => from < n
    case Set(s, _) => s < n
    case Clr(s, _) => s < n
    case AddCis(s, from) => s < n && from < n
    case Invert(s) => s < n
  }

  predicate Runnable(ops: seq<Op>, n: nat) {
    ops == [] || (Names(ops[0], n) && Runnable(ops[1..], if Creates(ops[0]) then n + 1 else n))
  }

  function Creations(ops: seq<Op>): nat {
    if ops == [] then 0 else (if Creates(ops[0]) then 1 else 0) + Creations(ops[1..])
  }

  function Nobody(): Members {
    seq(SIZE, _ => false)
  }

  function Both(m: Members, r: Members): Members {
    seq(SIZE, c requires 0 <= c < SIZE => m[c] || r[c])
  }

  // Character 0 keeps its membership: the parser relies on it.
  function Inverted(m: Members): Members {
    seq(SIZE, c requires 0 <= c < SIZE => if c == 0 then m[c] else !m[c])
  }

  // The new members of the specification the operation writes.
  function Edited(op: Op, sets: seq<Members>): Members
    requires Names(op, |sets|)
  {
    match op
    case Init => Nobody()
    case Dup(from) => sets[from]
    case Set(s, c) => sets[s][c := true]
    case Clr(s, c) => sets[s][c := false]
    case AddCis(s, from) => Both(sets[s], sets[from])
    case Invert(s) => Inverted(sets[s])
  }

  /** What the private form does, seen as sets: it never runs out. */
  function SetsStep(sets: seq<Members>, op: Op): seq<Members>
    requires Names(op, |sets|)
  {
    if Creates(op) then sets + [Edited(op, sets)] else sets[op.spec := Edited(op, sets)]
  }

  function SetsRun(sets: seq<Members>, ops: seq<Op>): seq<Members>
    requires Runnable(ops, |sets|)
    decreases |ops|
  {
    if ops == [] then sets else SetsRun(SetsStep(sets, ops[0]), ops[1..])
  }

  /** What an operation makes of the one specification it writes, character by character. */
  lemma EditedLaw(op: Op, sets: seq<Members>, c: Char)
    requires Names(op, |sets|)
    ensures
      Edited(op, sets)[c] ==
        match op
        case Init => false
        case Dup(from) => sets[from][c]
        case Set(s, d) => c == d || sets[s][c]
        case Clr(s, d) => c != d && sets[s][c]
        case AddCis(s, from) => sets[s][c] || sets[from][c]
        case Invert(s) => sets[s][c] == (c == 0)
  {
  }

  /** Creating adds a specification at the end; every other operation writes the one it names, and no other. */
  lemma SetsStepLaw(sets: seq<Members>, op: Op, k: nat)
    requires Names(op, |sets|)
    ensures
      var sets' := SetsStep(sets, op);
      if op.Init? || op.Dup? then
        |sets'| == |sets| + 1 && sets'[|sets|] == Edited(op, sets) && (k < |sets| ==> sets'[k] == sets[k])
      else
        |sets'| == |sets| && (k < |sets| ==> sets'[k] == if k == op.spec then Edited(op, sets) else sets[k])
  {
  }

  lemma InvertTwice(m: Members)
    ensures Inverted(Inverted(m)) == m
  {
    assert forall c :: 0 <= c < SIZE ==> Inverted(Inverted(m))[c] == m[c];
  }

  datatype Shared = Shared(buf: Words, mask: bv32, ids: seq<Id>)

  function Columns(sh: Shared): seq<Members> {
    seq(|sh.ids|, k requires 0 <= k < |sh.ids| => Column(sh.buf, sh.ids[k]))
  }

  /** The bit-sliced form; None is PJ_ETOOMANY. */
  function SharedStep(sh: Shared, op: Op): Option<Shared>
    requires Names(op, |sh.ids|)
  {
    var free := if Creates(op) then FirstFree(sh.mask, 0) else Some(sh.ids[op.spec]);
    if free.None? then None
    else
      var id := free.value;
      if op.Init? then Some(sh.(mask := Marked(sh.mask, id, true), ids := sh.ids + [id]))
      else
        var buf := Painted(sh.buf, id, Edited(op, Columns(sh)));
        Some(if op.Dup? then Shared(buf, Marked(sh.mask, id, true), sh.ids + [id]) else sh.(buf := buf))
  }

  function SharedRun(sh: Shared, ops: seq<Op>): Option<Shared>
    requires Runnable(ops, |sh.ids|)
    decreases |ops|
  {
    if ops == [] then Some(sh)
    else match SharedStep(sh, ops[0])
         case None => None
         case Some(next) => SharedRun(next, ops[1..])
  }

  function Blank(): Shared {
    Shared(seq(SIZE, _ => 0), 0, [])
  }

  // ---------- the sliced form refines the private one ----------

  /** Ids are given out in order, the mask marks exactly those, and the other columns are empty. */
  ghost predicate Sound(sh: Shared) {
    && |sh.ids| <= MAX_INDEX
    && (forall k :: 0 <= k < |sh.ids| ==> Number(sh.ids[k]) == k)
    && (forall i :: Has(sh.mask, i) <==> Number(i) < |sh.ids|)
    && (forall i :: |sh.ids| <= Number(i) ==> Column(sh.buf, i) == Nobody())
  }

  lemma BlankSound()
    ensures Sound(Blank()) && Columns(Blank()) == [] && |Blank().buf| == 256
  {
    forall i: Id
      ensures !Has(0, i) && Column(Blank().buf, i) == Nobody()
    {
      assert (0 as bv32) & Bit(i) == 0;
      assert forall c :: 0 <= c < SIZE ==> Blank().buf[c] == 0;
    }
  }

  lemma {:induction false} FreeIsNext(mask: bv32, n: nat, i: Id)
    requires n <= MAX_INDEX && Number(i) <= n
    requires forall k :: Has(mask, k) <==> Number(k) < n
    ensures FirstFree(mask, i).None? <==> n == MAX_INDEX
    ensures FirstFree(mask, i).Some? ==> Number(FirstFree(mask, i).value) == n
    decreases 31 - i
  {
    Numbers(i, i);
    if Has(mask, i) && i != 31 {
      FreeIsNext(mask, n, i + 1);
    }
  }

  lemma MaskGrows(mask: bv32, n: Id)
    requires forall i :: Has(mask, i) <==> Number(i) < Number(n)
    ensures forall i :: Has(Marked(mask, n, true), i) <==> Number(i) < Number(n) + 1
  {
    forall i
      ensures Has(Marked(mask, n, true), i) <==> Number(i) < Number(n) + 1
    {
      MarkedHas(mask, n, true, i);
      Numbers(i, n);
    }
  }

  lemma InitRefines(sh: Shared)
    requires Sound(sh) && |sh.ids| < MAX_INDEX
    ensures var next := SharedStep(sh, Init);
            next.Some? && Sound(next.value) && Columns(next.value) == SetsStep(Columns(sh), Init)
  {
    FreeIsNext(sh.mask, |sh.ids|, 0);
    var n := FirstFree(sh.mask, 0).value;
    MaskGrows(sh.mask, n);
    var next := SharedStep(sh, Init).value;
    assert Columns(next) == Columns(sh) + [Nobody()];
  }

  lemma PaintKeepsSound(sh: Shared, s: nat, m: Members)
    requires Sound(sh) && s < |sh.ids|
    ensures var next := sh.(buf := Painted(sh.buf, sh.ids[s], m));
            Sound(next) && Columns(next) == Columns(sh)[s := m]
  {
    var id := sh.ids[s];
    var buf := Painted(sh.buf, id, m);
    assert Number(id) == s;
    forall k | 0 <= k < |sh.ids|
      ensures Column(buf, sh.ids[k]) == if k == s then m else Column(sh.buf, sh.ids[k])
    {
      assert Number(sh.ids[k]) == k;
      PaintedColumn(sh.buf, id, m, sh.ids[k]);
    }
    forall i: Id | |sh.ids| <= Number(i)
      ensures Column(buf, i) == Nobody()
    {
      PaintedColumn(sh.buf, id, m, i);
    }
  }

  lemma DupRefines(sh: Shared, from: nat)
    requires Sound(sh) && |sh.ids| < MAX_INDEX && from < |sh.ids|
    ensures var next := SharedStep(sh, Dup(from));
            next.Some? && Sound(next.value) && Columns(next.value) == SetsStep(Columns(sh), Dup(from))
  {
    InitRefines(sh);
    var made, m := SharedStep(sh, Init).value, Columns(sh)[from];
    PaintKeepsSound(made, |sh.ids|, m);
    assert made.buf == sh.buf && made.ids[..|sh.ids|] == sh.ids;
    assert SharedStep(sh, Dup(from)).value == made.(buf := Painted(sh.buf, made.ids[|sh.ids|], m));
    assert (Columns(sh) + [Nobody()])[|sh.ids| := m] == Columns(sh) + [m];
  }

  lemma EditRefines(sh: Shared, op: Op)
    requires Sound(sh) && Names(op, |sh.ids|) && !Creates(op)
    ensures var next := SharedStep(sh, op);
            next.Some? && Sound(next.value) && Columns(next.value) == SetsStep(Columns(sh), op)
  {
    PaintKeepsSound(sh, op.spec, Edited(op, Columns(sh)));
  }

  /** One operation on the shared buffer does what it does on private arrays, unless all 32 ids are taken. */
  lemma StepRefines(sh: Shared, op: Op)
    requires Sound(sh) && Names(op, |sh.ids|)
    ensures SharedStep(sh, op).None? <==> Creates(op) && |sh.ids| == MAX_INDEX
    ensures SharedStep(sh, op).Some?
            ==> var next := SharedStep(sh, op).value;
                Sound(next) && Columns(next) == SetsStep(Columns(sh), op)
  {
    FreeIsNext(sh.mask, |sh.ids|, 0);
    if !Creates(op) {
      EditRefines(sh, op);
    } else if |sh.ids| < MAX_INDEX {
      match op
      case Init => InitRefines(sh);
      case Dup(from) => DupRefines(sh, from);
    }
  }

  lemma {:induction false} RunRefines(sh: Shared, ops: seq<Op>)
    requires Sound(sh) && Runnable(ops, |sh.ids|)
    ensures SharedRun(sh, ops).Some? <==> |sh.ids| + Creations(ops) <= MAX_INDEX
    ensures SharedRun(sh, ops).Some? ==> Columns(SharedRun(sh, ops).value) == SetsRun(Columns(sh), ops)
    decreases |ops|
  {
    if ops != [] {
      StepRefines(sh, ops[0]);
      var next := SharedStep(sh, ops[0]);
      if next.Some? {
        RunRefines(next.value, ops[1..]);
      }
    }
  }

  /**
   * From an initialized buffer, a run of operations goes through exactly when it creates at most 32
   * specifications, and then every membership test answers as with private arrays.
   */
  lemma SlicedIsPrivate(ops: seq<Op>)
    requires Runnable(ops, 0)
    ensures SharedRun(Blank(), ops).Some? <==> Creations(ops) <= MAX_INDEX
    ensures SharedRun(Blank(), ops).Some? ==> Columns(SharedRun(Blank(), ops).value) == SetsRun([], ops)
  {
    BlankSound();
    RunRefines(Blank(), ops);
  }

  // ---------- the bit-sliced form in place ----------

  /**
   * A specification in the bit-sliced form: the shared buffer and the bit it owns there. No id stands
   * for PJ_CIS_MAX_INDEX, which a refused specification is left with.
   */
  class BitCis {
    var cisBuf: array<bv32>
    var cisId: Option<Id>

    constructor (buf: array<bv32>)
      ensures cisBuf == buf && cisId == None
    {
      cisBuf, cisId := buf, None;
    }

    ghost predicate Ready()
      reads this
    {
      cisBuf.Length == SIZE && cisId.Some?
    }

    ghost function Contents(): Members
      requires Ready()
      reads this, cisBuf
    {
      Column(cisBuf[..], cisId.value)
    }

    method SetChar(c: Char)
      requires Ready()
      modifies cisBuf
      ensures cisBuf[..] == Painted(old(cisBuf[..]), cisId.value, old(Contents())[c := true])
      ensures cisBuf[..] == old(cisBuf[..])[c := Marked(old(cisBuf[c]), cisId.value, true)]
    {
      OneWordPainted(cisBuf[..], cisId.value, c, true);
      cisBuf[c] := cisBuf[c] | Bit(cisId.value);
    }

    method ClearChar(c: Char)
      requires Ready()
      modifies cisBuf
      ensures cisBuf[..] == Painted(old(cisBuf[..]), cisId.value, old(Contents())[c := false])
      ensures cisBuf[..] == old(cisBuf[..])[c := Marked(old(cisBuf[c]), cisId.value, false)]
    {
      OneWordPainted(cisBuf[..], cisId.value, c, false);
      cisBuf[c] := cisBuf[c] & !Bit(cisId.value);
    }

    method IsSet(c: Char) returns (r: bool)
      requires Ready()
      ensures r == Contents()[c]
    {
      r := cisBuf[c] & Bit(cisId.value) != 0;
    }

    method AddCis(rhs: BitCis)
      requires Ready() && rhs.Ready()
      modifies cisBuf
      ensures cisBuf[..] == Painted(old(cisBuf[..]), cisId.value, Both(old(Contents()), old(rhs.Contents())))
      ensures forall c: Char :: Contents()[c] <==> old(Contents())[c] || old(rhs.Contents())[c]
    {
      ghost var m := Both(Contents(), rhs.Contents());
      for i := 0 to SIZE
        invariant PaintedUpTo(cisBuf[..], old(cisBuf[..]), cisId.value, m, i)
        invariant rhs.cisBuf[i..] == old(rhs.cisBuf[i..])
      {
        assert rhs.cisBuf[i] == old(rhs.cisBuf[i]);
        MarkedSame(old(cisBuf[i]), cisId.value);
        var member := rhs.IsSet(i);
        if member {
          SetChar(i);
        }
      }
      PaintedColumn(old(cisBuf[..]), cisId.value, m, cisId.value);
    }

    method Invert()
      requires Ready()
      modifies cisBuf
      ensures cisBuf[..] == Painted(old(cisBuf[..]), cisId.value, Inverted(old(Contents())))
      ensures Contents()[0] == old(Contents())[0] && forall c: Char :: c > 0 ==> Contents()[c] == !old(Contents())[c]
    {
      ghost var m := Inverted(Contents());
      MarkedSame(cisBuf[0], cisId.value);
      for i := 1 to SIZE
        invariant PaintedUpTo(cisBuf[..], old(cisBuf[..]), cisId.value, m, i)
      {
        var member := IsSet(i);
        if member {
          ClearChar(i);
        } else {
          SetChar(i);
        }
      }
      PaintedColumn(old(cisBuf[..]), cisId.value, m, cisId.value);
    }
  }

  // The first n words are painted and the others are still as they were.
  ghost predicate PaintedUpTo(now: Words, was: Words, id: Id, m: Members, n: nat)
    requires n <= SIZE
  {
    forall c :: 0 <= c < SIZE ==> now[c] == if c < n then Marked(was[c], id, m[c]) else was[c]
  }

  /** The buffer up to 32 specifications share, with its mask of used ids. */
  class CisBuf {
    const cisBuf: array<bv32>
    var useMask: bv32

    constructor ()
      ensures fresh(cisBuf) && cisBuf[..] == Blank().buf && useMask == Blank().mask
    {
      cisBuf := new bv32[SIZE](_ => 0);
      useMask := 0;
    }

    method Init(cis: BitCis) returns (ok: bool)
      modifies this, cis
      ensures cis.cisBuf == cisBuf && cis.cisId == FirstFree(old(useMask), 0)
      ensures ok <==> cis.cisId.Some?
      ensures useMask == if ok then Marked(old(useMask), cis.cisId.value, true) else old(useMask)
    {
      cis.cisBuf := cisBuf;
      var i: Id := 0;
      while true
        invariant FirstFree(useMask, 0) == FirstFree(useMask, i)
        invariant useMask == old(useMask) && cis.cisBuf == cisBuf
        decreases 31 - i
      {
        if useMask & Bit(i) == 0 {
          cis.cisId := Some(i);
          useMask := useMask | Bit(i);
          return true;
        }
        if i == 31 {
          break;
        }
        i := i + 1;
      }
      cis.cisId := None;
      return false;
    }

    /** A new specification with the members of an existing one of this buffer. */
    method Dup(newCis: BitCis, existing: BitCis) returns (ok: bool)
      requires cisBuf.Length == SIZE && newCis != existing && existing.Ready() && existing.cisBuf == cisBuf
      modifies this, newCis, cisBuf
      ensures newCis.cisBuf == cisBuf && newCis.cisId == FirstFree(old(useMask), 0)
      ensures ok <==> newCis.cisId.Some?
      ensures useMask == if ok then Marked(old(useMask), newCis.cisId.value, true) else old(useMask)
      ensures cisBuf[..] == if ok then Painted(old(cisBuf[..]), newCis.cisId.value, old(existing.Contents())) else old(cisBuf[..])
    {
      ok := Init(newCis);
      if !ok {
        return;
      }
      ghost var m := existing.Contents();
      for i := 0 to SIZE
        modifies cisBuf
        invariant PaintedUpTo(cisBuf[..], old(cisBuf[..]), newCis.cisId.value, m, i)
      {
        var member := existing.IsSet(i);
        if member {
          newCis.SetChar(i);
        } else {
          newCis.ClearChar(i);
        }
      }
    }
  }

  // ---------- the plain form in place ----------

  function Flagged(flags: seq<int>): Members
    requires |flags| == SIZE
  {
    seq(SIZE, c requires 0 <= c < SIZE => flags[c] != 0)
  }

  /** A specification in the plain form: an array of its own. */
  class PlainCis {
    const cisBuf: array<int>

    ghost predicate Ready() {
      cisBuf.Length == SIZE
    }

    ghost function Contents(): Members
      requires Ready()
      reads cisBuf
    {
      Flagged(cisBuf[..])
    }

    constructor ()
      ensures Ready() && fresh(cisBuf) && Contents() == Nobody()
    {
      cisBuf := new int[SIZE](_ => 0);
    }

    constructor Dup(existing: PlainCis)
      requires existing.Ready()
      ensures Ready() && fresh(cisBuf) && Contents() == existing.Contents()
    {
      var source := existing.cisBuf;
      cisBuf := new int[SIZE](i requires 0 <= i < SIZE reads source => source[i]);
    }

    method SetChar(c: Char)
      requires Ready()
      modifies cisBuf
      ensures Contents() == old(Contents())[c := true]
    {
      cisBuf[c] := 1;
    }

    method ClearChar(c: Char)
      requires Ready()
      modifies cisBuf
      ensures Contents() == old(Contents())[c := false]
    {
      cisBuf[c] := 0;
    }

    method IsSet(c: Char) returns (r: bool)
      requires Ready()
      ensures r == Contents()[c]
    {
      r := cisBuf[c] != 0;
    }

    method AddCis(rhs: PlainCis)
      requires Ready() && rhs.Ready()
      modifies cisBuf
      ensures Contents() == Both(old(Contents()), old(rhs.Contents()))
      ensures forall c: Char :: Contents()[c] <==> old(Contents())[c] || old(rhs.Contents())[c]
    {
      for i := 0 to SIZE
        invariant forall c :: 0 <= c < i ==> (cisBuf[c] != 0 <==> old(cisBuf[c]) != 0 || old(rhs.cisBuf[c]) != 0)
        invariant forall c :: i <= c < SIZE ==> cisBuf[c] == old(cisBuf[c]) && rhs.cisBuf[c] == old(rhs.cisBuf[c])
      {
        if rhs.cisBuf[i] != 0 {
          cisBuf[i] := 1;
        }
      }
    }

    method Invert()
      requires Ready()
      modifies cisBuf
      ensures Contents() == Inverted(old(Contents()))
      ensures Contents()[0] == old(Contents())[0] && forall c: Char :: c > 0 ==> Contents()[c] == !old(Contents())[c]
    {
      for i := 1 to SIZE
        invariant cisBuf[0] == old(cisBuf[0])
        invariant forall c :: 1 <= c < i ==> (cisBuf[c] != 0 <==> old(cisBuf[c]) == 0)
        invariant forall c :: i <= c < SIZE ==> cisBuf[c] == old(cisBuf[c])
      {
        if cisBuf[i] != 0 {
          cisBuf[i] := 0;
        } else {
          cisBuf[i] := 1;
        }
      }
    }
  }
}
