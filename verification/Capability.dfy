/**
 * The choice of a camera capability for a requested size and frame rate, as the selection loop of
 * the WebRTC capture device makes it, and as its nesting means to make it.
 */
module Capability {
  import opened Basics

  datatype Cap = Cap(width: int, height: int, fps: int)

  function Abs(x: int): nat {
    if x < 0 then -x else x
  }

  function ByHeight(c: Cap, t: Cap): nat {
    Abs(c.height - t.height)
  }

  function ByWidth(c: Cap, t: Cap): nat {
    Abs(c.width - t.width)
  }

  function ByRate(c: Cap, t: Cap): nat {
    Abs(c.fps - t.fps)
  }

  /** Each distance is the absolute difference of its own dimension. */
  lemma DistanceLaw(c: Cap, t: Cap)
    ensures ByHeight(c, t) == if c.height >= t.height then c.height - t.height else t.height - c.height
    ensures ByWidth(c, t) == if c.width >= t.width then c.width - t.width else t.width - c.width
    ensures ByRate(c, t) == if c.fps >= t.fps then c.fps - t.fps else t.fps - c.fps
  {
  }

  /** Nearer to the target, or as near: height first, then width, then frame rate. */
  predicate AsNear(n: Cap, o: Cap, t: Cap) {
    || ByHeight(n, t) < ByHeight(o, t)
    || (ByHeight(n, t) == ByHeight(o, t)
        && (|| ByWidth(n, t) < ByWidth(o, t)
            || (ByWidth(n, t) == ByWidth(o, t) && ByRate(n, t) <= ByRate(o, t))))
  }

  /** One comparison of the loop: a worse width or rate falls through to the assignment after it. */
  predicate Replaces(n: Cap, o: Cap, t: Cap) {
    ByHeight(n, t) <= ByHeight(o, t)
  }

  // ---------- the loop as written ----------

  /** k is the last of the capabilities whose height is nearest. */
  predicate LastNearestHeight(caps: seq<Cap>, t: Cap, k: nat) {
    && k < |caps|
    && (forall j :: 0 <= j < k ==> ByHeight(caps[k], t) <= ByHeight(caps[j], t))
    && (forall j :: k < j < |caps| ==> ByHeight(caps[k], t) < ByHeight(caps[j], t))
  }

  method Select(caps: seq<Cap>, t: Cap) returns (chosen: Option<nat>)
    ensures chosen == None <==> caps == []
    ensures chosen.Some? ==> LastNearestHeight(caps, t, chosen.value)
  {
    chosen := None;
    for i := 0 to |caps|
      invariant chosen == None <==> i == 0
      invariant chosen.Some? ==> LastNearestHeight(caps[..i], t, chosen.value)
    {
      if chosen == None {
        chosen := Some(i);
        continue;
      }
      var held, candidate := caps[chosen.value], caps[i];
      if ByHeight(candidate, t) <= ByHeight(held, t) {
        if ByHeight(candidate, t) == ByHeight(held, t) {
          if ByWidth(candidate, t) <= ByWidth(held, t) {
            if ByWidth(candidate, t) == ByWidth(held, t) {
              if ByRate(candidate, t) <= ByRate(held, t) {
                chosen := Some(i);
                continue;
              }
            }
            chosen := Some(i);
            continue;
          }
        }
        chosen := Some(i);
        continue;
      }
    }
    assert caps[..|caps|] == caps;
  }

  // What the stream parameters become: the rate is kept in thousandths.
  datatype Param = Param(width: int, height: int, fpsNum: int, clockRate: int)

  /** The target of a parameter block; the division truncates toward zero. */
  function Target(p: Param): Cap {
    Cap(p.width, p.height, if p.fpsNum < 0 then -(-p.fpsNum / 1000) else p.fpsNum / 1000)
  }

  function Opened(c: Cap): Param {
    Param(c.width, c.height, c.fps * 1000, c.fps * 1000)
  }

  method CreateStream(caps: seq<Cap>, param: Param) returns (r: Option<Param>)
    ensures r == None <==> caps == []
    ensures r.Some?
            ==> (exists k: nat :: LastNearestHeight(caps, Target(param), k)
                                  && r.value.width == caps[k].width && r.value.height == caps[k].height
                                  && r.value.fpsNum == r.value.clockRate == 1000 * caps[k].fps)
  {
    var chosen := Select(caps, Target(param));
    if chosen == None {
      return None;
    }
    var c := caps[chosen.value];
    r := Some(Param(c.width, c.height, c.fps * 1000, c.fps * 1000));
  }

  lemma LastNearestIsUnique(caps: seq<Cap>, t: Cap, j: nat, k: nat)
    requires LastNearestHeight(caps, t, j) && LastNearestHeight(caps, t, k)
    ensures j == k
  {
    assert ByHeight(caps[j], t) == ByHeight(caps[k], t);
  }

  /** A parameter block asks for its own size, and for the whole frames of its rate. */
  lemma TargetLaw(width: int, height: int, fps: int, rest: nat, clock: int)
    requires rest < 1000
    ensures fps >= 0 ==> Target(Param(width, height, 1000 * fps + rest, clock)) == Cap(width, height, fps)
    ensures fps <= 0 ==> Target(Param(width, height, 1000 * fps - rest, clock)) == Cap(width, height, fps)
  {
  }

  /** A stream opened again with the parameters it was given gets the same capability, and no other. */
  lemma SelectingAgain(caps: seq<Cap>, t: Cap, k: nat, again: nat)
    requires LastNearestHeight(caps, t, k)
    ensures LastNearestHeight(caps, Target(Opened(caps[k])), again) <==> again == k
  {
    if LastNearestHeight(caps, Target(Opened(caps[k])), again) {
      LastNearestIsUnique(caps, Target(Opened(caps[k])), again, k);
    }
  }

  // ---------- the nesting repaired ----------

  /** The same nesting with each fall-through keeping the old capability. */
  predicate Improves(n: Cap, o: Cap, t: Cap) {
    if ByHeight(n, t) <= ByHeight(o, t) then
      if ByHeight(n, t) == ByHeight(o, t) then
        if ByWidth(n, t) <= ByWidth(o, t) then
          if ByWidth(n, t) == ByWidth(o, t) then ByRate(n, t) <= ByRate(o, t)
          else true
        else false
      else true
    else false
  }

  lemma ImprovesIsAsNear(n: Cap, o: Cap, t: Cap)
    ensures Improves(n, o, t) <==> AsNear(n, o, t)
  {}

  /** The repaired loop over the first i capabilities. */
  function Repaired(caps: seq<Cap>, t: Cap, i: nat): (k: nat)
    requires 0 < i <= |caps|
    ensures k < i
  {
    if i == 1 then 0
    else
      var k := Repaired(caps, t, i - 1);
      if Improves(caps[i - 1], caps[k], t) then i - 1 else k
  }

  /** k is the last of the capabilities nearest by height, width and rate. */
  predicate LastNearest(caps: seq<Cap>, t: Cap, k: nat) {
    && k < |caps|
    && (forall j :: 0 <= j < k ==> AsNear(caps[k], caps[j], t))
    && (forall j :: k < j < |caps| ==> !AsNear(caps[j], caps[k], t))
  }

  lemma AsNearLaws(a: Cap, b: Cap, c: Cap, t: Cap)
    ensures AsNear(a, b, t) || AsNear(b, a, t)
    ensures AsNear(a, b, t) && AsNear(b, c, t) ==> AsNear(a, c, t)
  {}

  lemma {:induction false} RepairedIsNearest(caps: seq<Cap>, t: Cap, i: nat)
    requires 0 < i <= |caps|
    ensures LastNearest(caps[..i], t, Repaired(caps, t, i))
  {
    if i > 1 {
      RepairedIsNearest(caps, t, i - 1);
      var k := Repaired(caps, t, i - 1);
      ImprovesIsAsNear(caps[i - 1], caps[k], t);
      forall j | 0 <= j < i
        ensures AsNear(caps[i - 1], caps[k], t) && AsNear(caps[k], caps[j], t) ==> AsNear(caps[i - 1], caps[j], t)
        ensures AsNear(caps[k], caps[j], t) || AsNear(caps[j], caps[k], t)
      {
        AsNearLaws(caps[i - 1], caps[k], caps[j], t);
        AsNearLaws(caps[k], caps[j], caps[k], t);
      }
      assert forall j :: 0 <= j < i - 1 ==> caps[..i - 1][j] == caps[..i][j];
    }
  }

  /** One comparison goes wrong exactly when the heights are equally near and width or rate got worse. */
  lemma WrittenDiffers(n: Cap, o: Cap, t: Cap)
    ensures Replaces(n, o, t) != Improves(n, o, t)
            <==> ByHeight(n, t) == ByHeight(o, t)
                 && (ByWidth(n, t) > ByWidth(o, t) || (ByWidth(n, t) == ByWidth(o, t) && ByRate(n, t) > ByRate(o, t)))
  {}

  function LeastHeight(caps: seq<Cap>, t: Cap): (d: nat)
    requires caps != []
    ensures forall i :: 0 <= i < |caps| ==> d <= ByHeight(caps[i], t)
    ensures exists i :: 0 <= i < |caps| && ByHeight(caps[i], t) == d
  {
    if |caps| == 1 then ByHeight(caps[0], t)
    else
      var rest := LeastHeight(caps[1..], t);
      if ByHeight(caps[0], t) < rest then ByHeight(caps[0], t) else rest
  }

  // The capabilities at height distance d, in list order.
  function AtHeight(caps: seq<Cap>, t: Cap, d: nat): (tied: seq<Cap>)
    ensures forall c :: c in tied ==> c in caps && ByHeight(c, t) == d
    ensures forall i :: 0 <= i < |caps| && ByHeight(caps[i], t) == d ==> caps[i] in tied
  {
    if caps == [] then []
    else (if ByHeight(caps[0], t) == d then [caps[0]] else []) + AtHeight(caps[1..], t, d)
  }

  /** Of the capabilities tied at the nearest height, the one listed last is as near as any in width and rate. */
  predicate LastTiedIsNearest(caps: seq<Cap>, t: Cap)
    requires caps != []
  {
    var tied := AtHeight(caps, t, LeastHeight(caps, t));
    forall c :: c in tied ==> AsNear(tied[|tied| - 1], c, t)
  }

  lemma {:induction false} NoneAtHeight(caps: seq<Cap>, t: Cap, d: nat)
    requires forall i :: 0 <= i < |caps| ==> ByHeight(caps[i], t) != d
    ensures AtHeight(caps, t, d) == []
  {
    if caps != [] {
      NoneAtHeight(caps[1..], t, d);
    }
  }

  lemma {:induction false} LastAtHeight(caps: seq<Cap>, t: Cap, k: nat)
    requires k < |caps|
    requires forall j :: k < j < |caps| ==> ByHeight(caps[j], t) != ByHeight(caps[k], t)
    ensures var tied := AtHeight(caps, t, ByHeight(caps[k], t)); tied != [] && tied[|tied| - 1] == caps[k]
  {
    var d := ByHeight(caps[k], t);
    if k > 0 {
      LastAtHeight(caps[1..], t, k - 1);
    } else {
      NoneAtHeight(caps[1..], t, d);
    }
  }

  lemma ChoiceIsLastTied(caps: seq<Cap>, t: Cap, k: nat)
    requires LastNearestHeight(caps, t, k)
    ensures LeastHeight(caps, t) == ByHeight(caps[k], t)
    ensures var tied := AtHeight(caps, t, LeastHeight(caps, t)); tied != [] && tied[|tied| - 1] == caps[k]
  {
    LastAtHeight(caps, t, k);
  }

  lemma TiedMeaning(caps: seq<Cap>, t: Cap, k: nat)
    requires LastNearestHeight(caps, t, k)
    ensures LastTiedIsNearest(caps, t)
            <==> forall j :: 0 <= j < |caps| && ByHeight(caps[j], t) == ByHeight(caps[k], t) ==> AsNear(caps[k], caps[j], t)
  {
    ChoiceIsLastTied(caps, t, k);
  }

  lemma ChoiceIsIntended(caps: seq<Cap>, t: Cap, k: nat)
    requires LastNearestHeight(caps, t, k)
    ensures k == Repaired(caps, t, |caps|)
            <==> forall j :: 0 <= j < |caps| && ByHeight(caps[j], t) == ByHeight(caps[k], t) ==> AsNear(caps[k], caps[j], t)
  {
    var b := Repaired(caps, t, |caps|);
    RepairedIsNearest(caps, t, |caps|);
    assert caps[..|caps|] == caps;
    AsNearLaws(caps[b], caps[k], caps[b], t);
  }

  /** Over a whole list, the loop makes the intended choice exactly when the last tied capability is the nearest. */
  lemma WrittenIsIntended(caps: seq<Cap>, t: Cap, k: nat)
    requires LastNearestHeight(caps, t, k)
    ensures k == Repaired(caps, t, |caps|) <==> LastTiedIsNearest(caps, t)
  {
    TiedMeaning(caps, t, k);
    ChoiceIsIntended(caps, t, k);
  }

  /** Two sizes of one height: the wrong one wins when it is listed last. */
  lemma WorseWidthWins()
    ensures var caps, t := [Cap(640, 480, 30), Cap(320, 480, 30)], Cap(640, 480, 30);
            LastNearestHeight(caps, t, 1) && Repaired(caps, t, 2) == 0
  {
    var caps, t := [Cap(640, 480, 30), Cap(320, 480, 30)], Cap(640, 480, 30);
    assert Repaired(caps, t, 1) == 0;
  }
}
