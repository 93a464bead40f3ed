/**
  The recorder thread's pacing: how late it believes to be (`missed`, in ms), the sleep it takes
  when early, and the timestamps of the frames it delivers. Times are unbounded integers.
 */
module Pacing {

  // C's division by 2, which truncates towards zero.
  function Half(m: int): int {
    if m >= 0 then m / 2 else -((-m) / 2)
  }

  function Next(frame: nat, missed: int, elapsed: nat): int {
    Half(missed) + elapsed - frame
  }

  // The sleep after an update: none when late or when at most 2 ms early.
  function Wait(missed: int): nat {
    if missed <= 0 && -missed - 2 > 0 then -missed - 2 else 0
  }

  // missed after the rounds measured by `elapsed`
  function Missed(frame: nat, missed: int, elapsed: seq<nat>): int
    decreases |elapsed|
  {
    if elapsed == [] then missed else Missed(frame, Next(frame, missed, elapsed[0]), elapsed[1..])
  }

  // A sleep makes up for exactly the time by which the thread is more than 2 ms early.
  lemma WaitLaw(missed: int)
    ensures missed <= -2 ==> missed + Wait(missed) == -2
    ensures missed >= -2 ==> Wait(missed) == 0
  {
  }

  // Half of the old lateness, cut towards zero, plus what the round took beyond a frame.
  lemma NextLaw(frame: nat, missed: int, elapsed: nat)
    ensures Next(frame, missed, elapsed + 1) == Next(frame, missed, elapsed) + 1
    ensures Next(frame, 0, elapsed) == elapsed - frame
    ensures Next(frame, -missed, frame) == -Next(frame, missed, frame)
    ensures missed >= 0 ==> missed - 1 <= 2 * Next(frame, missed, frame) <= missed
  {
  }

  // ---- the closed loop ----

  // Every measured time covers the sleep asked for in the round before.
  ghost predicate SleepsLast(frame: nat, missed: int, elapsed: seq<nat>)
    decreases |elapsed|
  {
    elapsed == [] ||
    (elapsed[0] >= Wait(missed) && SleepsLast(frame, Next(frame, missed, elapsed[0]), elapsed[1..]))
  }

  lemma NextNotTooEarly(frame: nat, missed: int, elapsed: nat)
    requires elapsed >= Wait(missed)
    ensures Next(frame, missed, elapsed) >= -(frame + 1)
  {
    if missed <= -3 {
      assert Half(missed) >= (missed - 1) / 2;
    }
  }

  // From the first update on the thread is never more than frame + 1 early, so a sleep is shorter
  // than a frame.
  lemma {:induction false} SleepsShorterThanFrame(frame: nat, missed: int, elapsed: seq<nat>)
    requires SleepsLast(frame, missed, elapsed) && elapsed != []
    ensures Missed(frame, missed, elapsed) >= -(frame + 1)
    ensures frame > 0 ==> Wait(Missed(frame, missed, elapsed)) < frame
    decreases |elapsed|
  {
    NextNotTooEarly(frame, missed, elapsed[0]);
    if |elapsed| > 1 {
      SleepsShorterThanFrame(frame, Next(frame, missed, elapsed[0]), elapsed[1..]);
    }
  }

  // The bound is met by a run of the thread: from its start, one round that leaves it 2 ms early and
  // asks for no sleep, and one in which no time passes.
  lemma EarliestIsReached(frame: nat)
    requires frame >= 3
    ensures
      var elapsed := [frame - frame / 2 - 2, 0];
      SleepsLast(frame, frame, elapsed) && Missed(frame, frame, elapsed) == -(frame + 1)
  {
    var elapsed := [frame - frame / 2 - 2, 0];
    assert Next(frame, frame, elapsed[0]) == -2;
    assert elapsed[1..] == [0] && [0][1..] == [];
    assert Missed(frame, -2, [0]) == Next(frame, -2, 0);
    assert SleepsLast(frame, -2, [0]);
  }

  // Rounds of at most `longest` each keep the lateness within a frame, or within twice what the longest
  // round takes beyond one.
  lemma {:induction false} NeverTooLate(frame: nat, missed: int, elapsed: seq<nat>, longest: nat)
    requires missed <= frame || missed <= 2 * (longest - frame)
    requires forall i | 0 <= i < |elapsed| :: elapsed[i] <= longest
    ensures
      var last := Missed(frame, missed, elapsed);
      last <= frame || last <= 2 * (longest - frame)
    decreases |elapsed|
  {
    if elapsed == [] {
    } else {
      NeverTooLate(frame, Next(frame, missed, elapsed[0]), elapsed[1..], longest);
    }
  }

  // ---- forgetting ----

  function Gap(a: int, b: int): nat {
    if a >= b then a - b else b - a
  }

  function HalvedUp(g: nat, rounds: nat): nat
    decreases rounds
  {
    if rounds == 0 then g else HalvedUp((g + 1) / 2, rounds - 1)
  }

  function Pow2(n: nat): nat {
    if n == 0 then 1 else 2 * Pow2(n - 1)
  }

  lemma GapHalves(frame: nat, a: int, b: int, elapsed: nat)
    ensures Gap(Next(frame, a, elapsed), Next(frame, b, elapsed)) <= (Gap(a, b) + 1) / 2
  {
  }

  lemma {:induction false} HalvedUpMonotone(g: nat, h: nat, rounds: nat)
    requires g <= h
    ensures HalvedUp(g, rounds) <= HalvedUp(h, rounds)
    decreases rounds
  {
    if rounds > 0 {
      HalvedUpMonotone((g + 1) / 2, (h + 1) / 2, rounds - 1);
    }
  }

  lemma {:induction false} HalvedUpEnds(g: nat, rounds: nat)
    ensures HalvedUp(g, rounds) <= 1 <==> g <= Pow2(rounds)
    decreases rounds
  {
    if rounds > 0 {
      HalvedUpEnds((g + 1) / 2, rounds - 1);
    }
  }

  // Two runs over the same measured times: the gap halves, rounded up, every round, and is at
  // most 1 once the rounds outnumber its binary digits.
  lemma {:induction false} RunsConverge(frame: nat, a: int, b: int, elapsed: seq<nat>)
    ensures Gap(Missed(frame, a, elapsed), Missed(frame, b, elapsed)) <= HalvedUp(Gap(a, b), |elapsed|)
    ensures Gap(a, b) <= Pow2(|elapsed|) ==> Gap(Missed(frame, a, elapsed), Missed(frame, b, elapsed)) <= 1
    decreases |elapsed|
  {
    HalvedUpEnds(Gap(a, b), |elapsed|);
    if elapsed == [] {
    } else {
      var a', b' := Next(frame, a, elapsed[0]), Next(frame, b, elapsed[0]);
      GapHalves(frame, a, b, elapsed[0]);
      RunsConverge(frame, a', b', elapsed[1..]);
      HalvedUpMonotone(Gap(a', b'), (Gap(a, b) + 1) / 2, |elapsed| - 1);
    }
  }

  // With every frame on time, `missed` is 0 after exactly as many rounds as it has binary digits.
  lemma {:induction false} OnTimeForgets(frame: nat, missed: int, elapsed: seq<nat>)
    requires forall i | 0 <= i < |elapsed| :: elapsed[i] == frame
    ensures Missed(frame, missed, elapsed) == 0 <==> Gap(missed, 0) < Pow2(|elapsed|)
    decreases |elapsed|
  {
    if elapsed == [] {
    } else {
      OnTimeForgets(frame, Half(missed), elapsed[1..]);
    }
  }

  // ---- the thread ----

  // One turn of the loop: the time measured, the bytes read, the quit flag seen after the read,
  // and whether the record callback succeeds.
  datatype Round = Round(elapsed: nat, bytesRead: int, quit: bool, callbackOk: bool)

  // The rounds the thread runs before quitting or failing.
  function Lived(rounds: seq<Round>, size: nat): (n: nat)
    ensures n <= |rounds|
  {
    if rounds == [] then 0
    else if rounds[0].bytesRead > 0
            && (rounds[0].quit || (rounds[0].bytesRead == size && !rounds[0].callbackOk))
    then 1
    else 1 + Lived(rounds[1..], size)
  }

  // A round with data ends the thread when it finds the quit flag, or when a whole frame is refused.
  predicate Ends(round: Round, size: nat) {
    round.bytesRead > 0 && (round.quit || (round.bytesRead == size && !round.callbackOk))
  }

  // The thread runs up to and including the first round that ends it.
  lemma {:induction false} LivedLaw(rounds: seq<Round>, size: nat)
    ensures forall k | 0 <= k < Lived(rounds, size) - 1 :: !Ends(rounds[k], size)
    ensures Lived(rounds, size) < |rounds| ==> Lived(rounds, size) > 0 && Ends(rounds[Lived(rounds, size) - 1], size)
  {
    if rounds != [] && !Ends(rounds[0], size) {
      LivedLaw(rounds[1..], size);
      var n := Lived(rounds[1..], size);
      if n == 0 {
        assert rounds[1..] == [];
      }
    }
  }

  // The rounds among them that hand over a whole frame.
  function Whole(rounds: seq<Round>, size: nat): nat {
    if rounds == [] then 0
    else if rounds[0].bytesRead <= 0 then Whole(rounds[1..], size)
    else if rounds[0].quit then 0
    else if rounds[0].bytesRead != size then Whole(rounds[1..], size)
    else if !rounds[0].callbackOk then 1
    else 1 + Whole(rounds[1..], size)
  }

  function WholeFrames(rounds: seq<Round>, size: nat): nat {
    if rounds == [] then 0
    else (if rounds[0].bytesRead == size && size > 0 && !rounds[0].quit then 1 else 0) + WholeFrames(rounds[1..], size)
  }

  // Of the rounds the thread runs, those with exactly the bytes of a frame and no quit flag are stamped.
  lemma {:induction false} WholeLaw(rounds: seq<Round>, size: nat)
    ensures Whole(rounds, size) == WholeFrames(rounds[..Lived(rounds, size)], size)
  {
    if rounds == [] {
    } else if Ends(rounds[0], size) {
      assert rounds[..1][1..] == [];
    } else {
      WholeLaw(rounds[1..], size);
      var n := Lived(rounds[1..], size);
      assert rounds[..n + 1][1..] == rounds[1..][..n];
    }
  }

  function Times(rounds: seq<Round>): (e: seq<nat>)
    ensures |e| == |rounds|
    ensures forall i | 0 <= i < |e| :: e[i] == rounds[i].elapsed
  {
    if rounds == [] then [] else [rounds[0].elapsed] + Times(rounds[1..])
  }

  lemma {:induction false} MissedSnoc(frame: nat, missed: int, elapsed: seq<nat>, e: nat)
    ensures Missed(frame, missed, elapsed + [e]) == Next(frame, Missed(frame, missed, elapsed), e)
    decreases |elapsed|
  {
    if elapsed == [] {
    } else {
      MissedSnoc(frame, Next(frame, missed, elapsed[0]), elapsed[1..], e);
      assert (elapsed + [e])[1..] == elapsed[1..] + [e];
    }
  }

  // Frames follow each other without a gap in their timestamps.
  ghost predicate Seamless(stamps: seq<nat>, nframes: nat) {
    && (stamps != [] ==> stamps[0] == 0)
    && (forall i | 0 < i < |stamps| :: stamps[i] == stamps[i - 1] + nframes)
  }

  // Frame i starts after exactly i frames' worth of samples.
  lemma {:induction false} SeamlessLaw(stamps: seq<nat>, nframes: nat, i: nat)
    requires Seamless(stamps, nframes) && i < |stamps|
    ensures stamps[i] == i * nframes
  {
    if i > 0 {
      SeamlessLaw(stamps, nframes, i - 1);
      assert i * nframes == (i - 1) * nframes + nframes;
    }
  }

  method UpdateMissed(frameTime: nat, missedTime: int, elapsedTime: nat) returns (missed: int, sleep: nat)
    ensures missed == Next(frameTime, missedTime, elapsedTime) && sleep == Wait(missed)
    ensures if missed <= -2 then missed + sleep == -2 else sleep == 0
  {
    missed := (if missedTime >= 0 then missedTime / 2 else -((-missedTime) / 2)) + elapsedTime - frameTime;
    sleep := 0;
    if missed <= 0 {
      var toWait := -missed - 2;
      if toWait > 0 {
        sleep := toWait;
      }
    }
  }

  // Each round slept as the feedback says.
  ghost predicate Paced(sleeps: seq<nat>, frame: nat, elapsed: seq<nat>) {
    && |sleeps| <= |elapsed|
    && forall i | 0 <= i < |sleeps| :: sleeps[i] == Wait(Missed(frame, frame, elapsed[..i + 1]))
  }

  lemma PacedSnoc(sleeps: seq<nat>, frame: nat, elapsed: seq<nat>)
    requires Paced(sleeps, frame, elapsed) && |sleeps| < |elapsed|
    ensures
      var k := |sleeps|;
      var missed := Next(frame, Missed(frame, frame, elapsed[..k]), elapsed[k]);
      Missed(frame, frame, elapsed[..k + 1]) == missed && Paced(sleeps + [Wait(missed)], frame, elapsed)
  {
    var k := |sleeps|;
    assert elapsed[..k + 1] == elapsed[..k] + [elapsed[k]];
    MissedSnoc(frame, frame, elapsed[..k], elapsed[k]);
  }

  // AndroidRecorderCallback. The rounds are those up to the one that finds the quit flag set.
  method RecorderCallback(frameTime: nat, nframes: nat, size: nat, rounds: seq<Round>)
    returns (sleeps: seq<nat>, stamps: seq<nat>)
    ensures |sleeps| == Lived(rounds, size)
    ensures Paced(sleeps, frameTime, Times(rounds))
    ensures forall i | 0 <= i < |sleeps| ::
              var missed := Missed(frameTime, frameTime, Times(rounds)[..i + 1]);
              if missed <= -2 then missed + sleeps[i] == -2 else sleeps[i] == 0
    ensures |stamps| == Whole(rounds, size) && forall i | 0 <= i < |stamps| :: stamps[i] == i * nframes
  {
    var elapsed := Times(rounds);
    var missedTime: int := frameTime;
    var tstamp := 0;
    sleeps, stamps := [], [];
    var k := 0;
    while k < |rounds|
      invariant 0 <= k <= |rounds| && |sleeps| == k
      invariant missedTime == Missed(frameTime, frameTime, elapsed[..k])
      invariant Paced(sleeps, frameTime, elapsed)
      invariant Lived(rounds, size) == k + Lived(rounds[k..], size)
      invariant Whole(rounds, size) == |stamps| + Whole(rounds[k..], size)
      invariant Seamless(stamps, nframes)
      invariant tstamp == if stamps == [] then 0 else stamps[|stamps| - 1] + nframes
    {
      var round := rounds[k];
      assert rounds[k..][0] == round && rounds[k..][1..] == rounds[k + 1..];
      PacedSnoc(sleeps, frameTime, elapsed);
      var sleep;
      missedTime, sleep := UpdateMissed(frameTime, missedTime, round.elapsed);
      sleeps := sleeps + [sleep];
      k := k + 1;
      if round.bytesRead <= 0 {
        continue;
      }
      if round.quit {
        break;
      }
      if round.bytesRead != size {
        continue;
      }
      stamps := stamps + [tstamp];
      if !round.callbackOk {
        break;
      }
      tstamp := tstamp + nframes;
    }
    forall i | 0 <= i < |stamps|
      ensures stamps[i] == i * nframes
    {
      SeamlessLaw(stamps, nframes, i);
    }
  }
}
