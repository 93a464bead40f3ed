/**
  Runs from the start that reach the rarer breaches `FloorSafety` and `FloorRuns` characterise: a
  listener to nobody, a FREE floor that takes a name, and two ways to speak with the key up.
 */
module FloorCases {
  import opened Basics
  import opened PttState
  import opened FloorSpec
  import opened FloorSafety
  import opened FloorRuns

  // ---- an empty login ----

  // With the stored login still at its default, empty: a group call is answered with the key down
  // while a single call is on top, and the terminal listens to nobody.
  const NOBODY := CALM.(user := "")

  const UNNAMED: seq<Action> := [
    Action(GroupInfo(["1"]), NOBODY), Action(MInvite(Some("1"), Some("2")), NOBODY), Action(KeyDown, NOBODY),
    Action(CallReport(Call(1, Some("1"), Talking, 0)), NOBODY.(callOnTop := true))]

  lemma ListenerCanLoseSpeaker()
    ensures AllAdmissible(UNNAMED)
    ensures Run(START, UNNAMED).ptt.status == Listening && Blank(Run(START, UNNAMED).ptt.speaker)
  {
    var heard := Ptt(Listening, Some("2"), Some("1"), -1, 0);
    var m1 := START.(groups := Groups(["1"], map[], false), currentGroup := Some("1"));
    var m2 := m1.(ptt := heard);
    var m3 := m2.(key := Down, queue := [Apply]);
    var report := UNNAMED[3];
    var m4 := Step(m3, report.event, report.env);
    assert '1' in "1" && '2' in "2";
    ListIsStored(m1);
    NobodyHears(m1, m2);
    assert Step(m2, KeyDown, NOBODY) == m3;
    StepKeepsSpeaker(m3, report.event, report.env);
    assert Unnames(m3, report.event, report.env);
    RunUnrolls(START, UNNAMED, [START, m1, m2, m3, m4]);
  }

  lemma ListIsStored(m1: Machine)
    requires m1 == START.(groups := Groups(["1"], map[], false), currentGroup := Some("1"))
    ensures Step(START, GroupInfo(["1"]), NOBODY) == m1
  {
    assert '1' in "1";
  }

  lemma NobodyHears(m1: Machine, m2: Machine)
    requires m1 == START.(groups := Groups(["1"], map[], false), currentGroup := Some("1"))
    requires m2 == m1.(ptt := Ptt(Listening, Some("2"), Some("1"), -1, 0))
    ensures Step(m1, MInvite(Some("1"), Some("2")), NOBODY) == m2
  {
    assert '2' in "2";
    var p := NEW_PTT.(speaker := Some("2"), status := Listening);
    assert RefreshedState(m1.(ptt := p), NOBODY) == m1.(ptt := p);
  }

  // ---- a login of spaces ----

  // As above with a login of one space, which a cancel then leaves on the open floor; once somebody
  // else has logged in, the next group call names that login while the floor is FREE.
  const SPACE := CALM.(user := " ")

  const GROUP_CALL := Call(1, Some("1"), Talking, 0)

  const SPACE_TAKEN: seq<Action> := [
    Action(GroupInfo(["1"]), NOBODY), Action(MInvite(Some("1"), Some("2")), NOBODY), Action(KeyDown, NOBODY),
    Action(Deliver, SPACE.(errorShowing := true)), Action(CallReport(GROUP_CALL), SPACE.(callOnTop := true))]

  const NAMED_WHILE_FREE: seq<Action> := [
    Action(Post(Cancel), SPACE), Action(Deliver, SPACE),
    Action(CallReport(GROUP_CALL), CALM.(callOnTop := true))]

  lemma FreeCanTakeAName()
    ensures AllAdmissible(SPACE_TAKEN + NAMED_WHILE_FREE)
    ensures
      var p := Run(START, SPACE_TAKEN + NAMED_WHILE_FREE).ptt;
      p.status == Free && !Blank(p.speaker)
  {
    var m5 := START.(
      groups := Groups(["1"], map[], false), currentGroup := Some("1"), key := Down, pttCall := Talking,
      call := GROUP_CALL, ptt := Ptt(Listening, Some(" "), Some("1"), 1, 0));
    RunSplits(START, SPACE_TAKEN, NAMED_WHILE_FREE);
    SpaceIsTaken(m5);
    NamedWhileFree(m5);
  }

  lemma SpaceIsTaken(m5: Machine)
    requires m5 == START.(
      groups := Groups(["1"], map[], false), currentGroup := Some("1"), key := Down, pttCall := Talking,
      call := GROUP_CALL, ptt := Ptt(Listening, Some(" "), Some("1"), 1, 0))
    ensures Run(START, SPACE_TAKEN) == m5
  {
    var m1 := START.(groups := Groups(["1"], map[], false), currentGroup := Some("1"));
    var m2 := m1.(ptt := Ptt(Listening, Some("2"), Some("1"), -1, 0));
    var m3 := m2.(key := Down, queue := [Apply]);
    var m4 := m3.(queue := []);
    ListIsStored(m1);
    NobodyHears(m1, m2);
    assert Step(m2, KeyDown, NOBODY) == m3;
    assert Step(m3, Deliver, SPACE.(errorShowing := true)) == m4;
    SpaceReplaces(m4, m5);
    RunUnrolls(START, SPACE_TAKEN, [START, m1, m2, m3, m4, m5]);
  }

  lemma SpaceReplaces(m4: Machine, m5: Machine)
    requires m4.ptt == Ptt(Listening, Some("2"), Some("1"), -1, 0) && m4.key == Down && !m4.halted && !m4.force
    requires m4.groups.list == ["1"]
    requires m5 == m4.(ptt := m4.ptt.(speaker := Some(" "), callId := 1), pttCall := Talking, call := GROUP_CALL)
    ensures Step(m4, CallReport(GROUP_CALL), SPACE.(callOnTop := true)) == m5
  {
    assert '1' in "1" && "2" != " ";
  }

  lemma NamedWhileFree(m5: Machine)
    requires m5.ptt == Ptt(Listening, Some(" "), Some("1"), 1, 0) && m5.key == Down && m5.queue == []
    requires !m5.halted && !m5.exiting && !m5.force && m5.groups.list == ["1"]
    ensures
      var p := Run(m5, NAMED_WHILE_FREE).ptt;
      p.status == Free && !Blank(p.speaker)
  {
    var m6 := m5.(queue := [Cancel]);
    var m7 := m5.(ptt := m5.ptt.(status := Free));
    var last := NAMED_WHILE_FREE[2];
    var m8 := Step(m7, last.event, last.env);
    assert '1' in "1" && '9' in "9";
    assert Step(m5, Post(Cancel), SPACE) == m6;
    assert Step(m6, Deliver, SPACE) == m7;
    StepKeepsSpeaker(m7, last.event, last.env);
    assert Leaks(m7, last.event, last.env);
    RunUnrolls(m5, NAMED_WHILE_FREE, [m5, m6, m7, m8]);
  }

  // ---- the exit flag ----

  // The key is released, its hangup is queued, and the exit flag swallows it.
  const SPEAKING_UP: seq<Action> := [
    Action(KeyDown, CALM), Action(Deliver, CALM), Action(MInvite(Some("1"), Some("9")), CALM)]

  const SWALLOWED: seq<Action> := [
    Action(KeyUp, CALM), Action(KeyUpWake, CALM), Action(ExitRequested, CALM), Action(Deliver, CALM)]

  lemma ExitStrands()
    ensures AllAdmissible(SPEAKING_UP + SWALLOWED)
    ensures var m := Run(START, SPEAKING_UP + SWALLOWED); SpeaksReleased(m) && !HangupDue(m)
  {
    var m3 := START.(key := Down, ptt := Ptt(Speaking, Some("9"), Some("1"), -1, 0));
    RunSplits(START, SPEAKING_UP, SWALLOWED);
    PressedSpeaks(m3);
    HangupSwallowed(m3);
  }

  lemma PressedSpeaks(m3: Machine)
    requires m3 == START.(key := Down, ptt := Ptt(Speaking, Some("9"), Some("1"), -1, 0))
    ensures Run(START, SPEAKING_UP) == m3
  {
    var m1 := START.(key := Down, queue := [Apply]);
    var m2 := START.(key := Down, ptt := NEW_PTT.(status := Init));
    assert Step(START, KeyDown, CALM) == m1;
    assert Step(m1, Deliver, CALM) == m2;
    OwnInviteSpeaks(m2, m3);
    RunUnrolls(START, SPEAKING_UP, [START, m1, m2, m3]);
  }

  lemma HangupSwallowed(m3: Machine)
    requires m3.ptt.status == Speaking && m3.key == Down && m3.queue == [] && m3.asleep == 0 && !m3.halted
    ensures var m := Run(m3, SWALLOWED); SpeaksReleased(m) && !HangupDue(m)
  {
    var m4 := m3.(key := Up, asleep := 1);
    var m5 := m3.(key := Up, queue := [Hangup]);
    var m6 := m5.(exiting := true);
    var m7 := m6.(queue := []);
    assert Step(m3, KeyUp, CALM) == m4;
    assert Step(m4, KeyUpWake, CALM) == m5;
    assert Step(m5, ExitRequested, CALM) == m6;
    assert Step(m6, Deliver, CALM) == m7;
    RunUnrolls(m3, SWALLOWED, [m3, m4, m5, m6, m7]);
  }

  lemma OwnInviteSpeaks(m2: Machine, m3: Machine)
    requires m2 == START.(key := Down, ptt := NEW_PTT.(status := Init))
    requires m3 == START.(key := Down, ptt := Ptt(Speaking, Some("9"), Some("1"), -1, 0))
    ensures Step(m2, MInvite(Some("1"), Some("9")), CALM) == m3
  {
    assert '9' in "9";
    var p := NEW_PTT.(speaker := Some("9"), status := Speaking);
    assert RefreshedState(m2.(ptt := p), CALM) == m2.(ptt := p);
  }

  // ---- answering while named ----

  // In a single call an m-Invite names this terminal as the one to listen to; the group call then
  // answered makes it speak with the key up.
  const ON_TOP := CALM.(callOnTop := true)

  const SINGLE := Call(2, Some("5"), Talking, 0)

  const ANSWERED: seq<Action> := [
    Action(GroupInfo(["1"]), NOBODY), Action(CallReport(SINGLE), ON_TOP),
    Action(MInvite(Some("1"), Some("9")), ON_TOP), Action(CallReport(GROUP_CALL), ON_TOP)]

  lemma AnsweringStrands()
    ensures AllAdmissible(ANSWERED)
    ensures SpeaksReleased(Run(START, ANSWERED)) && !HangupDue(Run(START, ANSWERED))
  {
    var m1 := START.(groups := Groups(["1"], map[], false), currentGroup := Some("1"));
    var m2 := m1.(call := SINGLE);
    var m3 := m2.(ptt := NEW_PTT.(status := Listening, speaker := Some("9"), group := Some("1")));
    var m4 := Step(m3, CallReport(GROUP_CALL), ON_TOP);
    assert '1' in "1";
    ListIsStored(m1);
    NamedInSingleCall(m1, m2, m3);
    StepKeepsHangupDue(m3, CallReport(GROUP_CALL), ON_TOP);
    assert Strands(m3, CallReport(GROUP_CALL), ON_TOP);
    RunUnrolls(START, ANSWERED, [START, m1, m2, m3, m4]);
  }

  lemma NamedInSingleCall(m1: Machine, m2: Machine, m3: Machine)
    requires m1 == START.(groups := Groups(["1"], map[], false), currentGroup := Some("1"))
    requires m2 == m1.(call := SINGLE)
    requires m3 == m2.(ptt := NEW_PTT.(status := Listening, speaker := Some("9"), group := Some("1")))
    ensures Step(m1, CallReport(SINGLE), ON_TOP) == m2
    ensures Step(m2, MInvite(Some("1"), Some("9")), ON_TOP) == m3
  {
    assert '1' in "1" && '5' in "5" && '9' in "9" && "5" != "1";
  }
}
