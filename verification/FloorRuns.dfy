/**
  Whole runs of the floor: the speaker rules of `FloorSafety` carried over every sequence of
  handlers, and the promise that releasing the key ends this terminal's own speech.
 */
module FloorRuns {
  import opened Basics
  import opened PttState
  import opened FloorSpec
  import opened FloorSafety
  import GroupRoster

  // ---- the speaker, over runs ----

  ghost predicate AllAdmissible(actions: seq<Action>) {
    forall a | a in actions :: Admissible(a.event)
  }

  ghost predicate NeverUnnamed(m: Machine, actions: seq<Action>)
    decreases |actions|
  {
    actions == [] ||
    (!Unnames(m, actions[0].event, actions[0].env)
     && NeverUnnamed(Step(m, actions[0].event, actions[0].env), actions[1..]))
  }

  ghost predicate LeakFree(m: Machine, actions: seq<Action>)
    decreases |actions|
  {
    actions == [] ||
    (!Leaks(m, actions[0].event, actions[0].env)
     && LeakFree(Step(m, actions[0].event, actions[0].env), actions[1..]))
  }

  // LISTENING always names a speaker as long as it has not come to name a blank login; FREE never does
  // as long as no step has leaked one; and no speaker is made of spaces unless a login is.
  lemma {:induction false} RunKeepsSpeaker(m: Machine, actions: seq<Action>)
    requires AllAdmissible(actions)
    ensures Named(m.ptt) && NeverUnnamed(m, actions) ==> Named(Run(m, actions).ptt)
    ensures Silent(m.ptt) && LeakFree(m, actions) ==> Silent(Run(m, actions).ptt)
    ensures Plain(m.ptt) && (forall a | a in actions :: PlainName(a.env.user)) ==> Plain(Run(m, actions).ptt)
    decreases |actions|
  {
    if actions == [] {
    } else {
      StepKeepsSpeaker(m, actions[0].event, actions[0].env);
      RunKeepsSpeaker(Step(m, actions[0].event, actions[0].env), actions[1..]);
    }
  }

  lemma {:induction false} LoginsAreNamed(m: Machine, actions: seq<Action>)
    requires forall a | a in actions :: !BlankText(a.env.user)
    ensures NeverUnnamed(m, actions)
    decreases |actions|
  {
    if actions == [] {
    } else {
      LoginsAreNamed(Step(m, actions[0].event, actions[0].env), actions[1..]);
    }
  }

  // From the start, with a login that says something throughout: LISTENING names a speaker, and the
  // speaker of FREE is null or empty, until a group list leaks one.
  lemma LoggedInRunKeepsSpeaker(actions: seq<Action>)
    requires AllAdmissible(actions) && forall a | a in actions :: !BlankText(a.env.user)
    ensures
      var p := Run(START, actions).ptt;
      && (p.status == Listening ==> !Blank(p.speaker))
      && (LeakFree(START, actions) && p.status == Free ==> Empty(p.speaker))
  {
    LoginsAreNamed(START, actions);
    RunKeepsSpeaker(START, actions);
  }

  const CALM := Env("9", false, false, false, true, false, true, true, true)

  // A talk burst heard before any group list, one press and release, then the list: the floor
  // ends FREE and still names the old speaker.
  const LEAK: seq<Action> := [
    Action(MInvite(Some("1"), Some("2")), CALM), Action(KeyDown, CALM), Action(Deliver, CALM),
    Action(KeyUp, CALM), Action(KeyUpWake, CALM), Action(GroupInfo(["1"]), CALM)]

  lemma FreeCanNameASpeaker()
    ensures AllAdmissible(LEAK)
    ensures Run(START, LEAK).ptt.status == Free && Run(START, LEAK).ptt.speaker == Some("2")
  {
    var heard := Ptt(Listening, Some("2"), Some("1"), -1, 0);
    var asked := heard.(status := Init);
    var m1 := START.(ptt := heard);
    var m2 := m1.(key := Down, queue := [Apply]);
    var m3 := m2.(ptt := asked, queue := []);
    var m4 := m3.(key := Up, asleep := 1);
    var m5 := m4.(asleep := 0);
    var m6 := Step(m5, GroupInfo(["1"]), CALM);
    assert '9' in "9" && '2' in "2" && '1' in "1";
    LeakHears(heard);
    LeakAsks(heard);
    assert Step(m3, KeyUp, CALM) == m4;
    assert Step(m4, KeyUpWake, CALM) == m5;
    LeakFrees(m5);
    RunUnrolls(START, LEAK, [START, m1, m2, m3, m4, m5, m6]);
  }

  lemma LeakHears(heard: Ptt)
    requires heard == Ptt(Listening, Some("2"), Some("1"), -1, 0)
    ensures Step(START, MInvite(Some("1"), Some("2")), CALM) == START.(ptt := heard)
  {
    assert '2' in "2" && "2" != "9";
    assert RefreshedState(START.(ptt := NEW_PTT.(speaker := Some("2"), status := Listening)), CALM)
           == START.(ptt := NEW_PTT.(speaker := Some("2"), status := Listening));
  }

  lemma LeakAsks(heard: Ptt)
    requires heard == Ptt(Listening, Some("2"), Some("1"), -1, 0)
    ensures
      var m1 := START.(ptt := heard);
      var m2 := m1.(key := Down, queue := [Apply]);
      && Step(m1, KeyDown, CALM) == m2
      && Step(m2, Deliver, CALM) == m2.(ptt := heard.(status := Init), queue := [])
  {
  }

  lemma LeakFrees(m: Machine)
    requires !m.halted && m.ptt.status == Init && m.key == Up && !m.groups.dynamic
    ensures
      var p := Step(m, GroupInfo(["1"]), CALM).ptt;
      p.status == Free && p.speaker == m.ptt.speaker
  {
    assert '1' in "1";
    assert CurrentGroup(Listed(m, ["1"])).Some?;
  }

  // A run is what its successive snapshots say.
  lemma {:induction false} RunUnrolls(m: Machine, actions: seq<Action>, states: seq<Machine>)
    requires |states| == |actions| + 1 && states[0] == m
    requires forall i | 0 <= i < |actions| :: states[i + 1] == Step(states[i], actions[i].event, actions[i].env)
    ensures Run(m, actions) == states[|actions|]
    decreases |actions|
  {
    if actions != [] {
      RunUnrolls(states[1], actions[1..], states[1..]);
    }
  }

  lemma {:induction false} RunSplits(m: Machine, first: seq<Action>, second: seq<Action>)
    ensures Run(m, first + second) == Run(Run(m, first), second)
    decreases |first|
  {
    if first == [] {
      assert first + second == second;
    } else {
      assert (first + second)[1..] == first[1..] + second;
      RunSplits(Step(m, first[0].event, first[0].env), first[1..], second);
    }
  }

  // ---- speaking with the key up ----

  ghost predicate SpeaksReleased(m: Machine) {
    m.ptt.status == Speaking && m.key == Up
  }

  // Somebody is on the way to hang up.
  ghost predicate HangupDue(m: Machine) {
    m.asleep > 0 || Hangup in m.queue
  }

  ghost predicate WillHangUp(m: Machine) {
    SpeaksReleased(m) ==> HangupDue(m)
  }

  // The handlers that can leave the terminal speaking with nobody due to hang up: the exit flag
  // swallows the hangup, a single call keeps a claim of the floor from being settled, or a listener
  // to nobody takes an answered group call for its own.
  ghost predicate Strands(m: Machine, e: Event, env: Env) {
    && !m.halted
    && m.key == Up
    && m.asleep == 0
    && match e
       case Deliver =>
         m.exiting && m.ptt.status == Speaking
         && m.queue != [] && m.queue[0] == Hangup && Hangup !in m.queue[1..]
       case MInvite(group, speaker) =>
         && Hangup !in m.queue
         && group.Some? && speaker == Some(env.user) && !Blank(speaker)
         && NoCall(m.call.state) && SingleCall(m, env)
       case CallReport(call) =>
         && Hangup !in m.queue
         && !IsError(call.errorCode) && IsGroup(m.groups.list, call.number) && !m.force
         && AnswersOwnCall(m, call, env)
       case _ => false
  }

  lemma SettledUp(m: Machine, reported: Status, mine: bool, env: Env)
    ensures
      var m' := Settled(m, reported, mine, env);
      && m'.key == m.key && m'.queue == m.queue && m'.asleep == m.asleep
      && (SpeaksReleased(m') <==> SpeaksReleased(m) && (SingleCall(m, env) || !mine))
  {
  }

  lemma RefreshedUp(m: Machine, env: Env)
    ensures
      var m' := RefreshedState(m, env);
      && m'.key == m.key && m'.queue == m.queue && m'.asleep == m.asleep
      && (SpeaksReleased(m') <==>
          SpeaksReleased(m) && (SingleCall(m, env) || m.ptt.speaker != Some(env.user)))
  {
    SettledUp(m, m.ptt.status, m.ptt.speaker == Some(env.user), env);
  }

  lemma ReportedUp(m: Machine, src: Ptt, env: Env)
    ensures
      var m' := ReportedState(m, src, env);
      && m'.key == m.key && m'.queue == m.queue && m'.asleep == m.asleep
      && (SpeaksReleased(m') ==> SpeaksReleased(m))
  {
    SettledUp(Absorbed(m, src), src.status, Completed(m.ptt, src).speaker == Some(env.user), env);
  }

  lemma RoutedKeepsTurn(m: Machine, before: Status, call: Call, env: Env)
    ensures
      var m' := Routed(m, before, call, env);
      m'.key == m.key && m'.queue == m.queue && m'.asleep == m.asleep && m'.ptt.status == m.ptt.status
  {
  }

  lemma TalkingUp(m: Machine, call: Call, env: Env)
    ensures
      var m' := GroupTalking(m, call, env);
      && m'.key == m.key && m'.queue == m.queue && m'.asleep == m.asleep
      && (SpeaksReleased(m') <==>
          m.key == Up && (m.ptt.status == Speaking
            || (m.ptt.status == Listening
                && if m.ptt.speaker == Some(env.user) then SingleCall(m, env) else Empty(m.ptt.speaker))))
  {
    var m' := m.(ptt := Connected(m, call, env));
    RefreshedUp(m', env);
  }

  lemma EndedUp(m: Machine, call: Call, env: Env)
    ensures
      var m' := GroupEnded(m, call, env);
      && m'.key == m.key && m'.queue == m.queue && m'.asleep == m.asleep
      && !SpeaksReleased(m')
  {
    RoutedKeepsTurn(m, m.ptt.status, call, env);
    match m.ptt.status
    case Speaking => RefreshedUp(m.(ptt := FreeFloor(m.ptt)), env);
    case Listening =>
      RefreshedUp(m.(ptt := FreeFloor(m.ptt)), env);
      RoutedKeepsTurn(RefreshedState(m.(ptt := FreeFloor(m.ptt)), env), Listening, call, env);
    case Waiting =>
      var c := CancelRight(m, env);
      RefreshedUp(c.(ptt := c.ptt.(status := Canceling)), env);
    case _ => RefreshedUp(m.(ptt := m.ptt.(status := Fallback(m.ptt.speaker))), env);
  }

  // A listener answers a group call: it hears itself while a single call is on top, or nobody.
  ghost predicate AnswersOwnCall(m: Machine, call: Call, env: Env) {
    && call.state == Talking && m.key == Up && m.ptt.status == Listening
    && if m.ptt.speaker == Some(env.user) then env.callOnTop else Empty(m.ptt.speaker)
  }

  lemma GroupCallUp(m: Machine, call: Call, env: Env)
    requires !IsError(call.errorCode) && IsGroup(m.groups.list, call.number) && !m.force
    ensures
      var m' := CallShown(m, call, env);
      && m'.key == m.key && m'.queue == m.queue && m'.asleep == m.asleep
      && (SpeaksReleased(m') ==> SpeaksReleased(m) || AnswersOwnCall(m, call, env))
      && (AnswersOwnCall(m, call, env) ==> SpeaksReleased(m'))
  {
    var m' := m.(pttCall := call.state,
                 ptt := if call.callId >= 0 then m.ptt.(callId := call.callId) else m.ptt);
    RoutedKeepsTurn(m', m.ptt.status, call, env);
    match call.state
    case Talking =>
      TalkingUp(m', call, env);
      RoutedKeepsTurn(GroupTalking(m', call, env), m.ptt.status, call, env);
    case Ended => EndedUp(m', call, env);
    case _ =>
  }

  lemma CallReportUp(m: Machine, call: Call, env: Env)
    requires WillHangUp(m) && !m.halted
    ensures WillHangUp(CallShown(m, call, env)) <==> !Strands(m, CallReport(call), env)
  {
    if !IsError(call.errorCode) && IsGroup(m.groups.list, call.number) && !m.force {
      GroupCallUp(m, call, env);
    } else {
      RoutedKeepsTurn(m, m.ptt.status, call, env);
    }
  }

  lemma SilentInviteUp(m: Machine, group: Option<string>, speaker: Option<string>, env: Env)
    ensures
      var m' := InvitedSilently(m, group, speaker, env);
      && m'.key == m.key && m'.queue == m.queue && m'.asleep == m.asleep
      && !SpeaksReleased(m')
  {
    RefreshedUp(m.(ptt := FreeFloor(m.ptt)), env);
    RefreshedKeepsOpen(m.(ptt := FreeFloor(m.ptt)), env);
  }

  lemma InvitedUp(m: Machine, group: Option<string>, speaker: Option<string>, env: Env)
    ensures
      var m' := InvitedOutsideCall(m, group, speaker, env);
      && m'.key == m.key && m'.queue == m.queue && m'.asleep == m.asleep
      && (SpeaksReleased(m') <==>
          m.key == Up && speaker == Some(env.user) && !Blank(speaker) && SingleCall(m, env))
  {
    if Blank(speaker) {
      SilentInviteUp(m, group, speaker, env);
    } else {
      var p := m.ptt.(speaker := speaker,
                      status := if speaker == Some(env.user) then Speaking else Listening);
      RefreshedUp(m.(ptt := p), env);
      RefreshedKeepsOpen(m.(ptt := p), env);
      if speaker != Some(env.user) && m.ptt.status in {Waiting, Applying, Rejected} && m.key == Down {
        RefreshedUp(m.(ptt := m.ptt.(speaker := speaker)), env);
      }
    }
  }

  lemma MInviteUp(m: Machine, group: Option<string>, speaker: Option<string>, env: Env)
    requires WillHangUp(m) && !m.halted
    ensures WillHangUp(Invited(m, group, speaker, env)) <==> !Strands(m, MInvite(group, speaker), env)
  {
    InvitedUp(m, group, speaker, env);
    InvitedUp(CallCleared(m), group, speaker, env);
  }

  lemma ResponseUp(m: Machine, response: Status, env: Env)
    requires WillHangUp(m)
    requires response in {Accepted, Busy, Waiting, Rejected, Canceled, Forbidden}
    ensures WillHangUp(Responded(m, response, env))
  {
    forall s | s != Speaking
      ensures !SpeaksReleased(RefreshedState(m.(ptt := m.ptt.(status := s)), env))
    {
      RefreshedUp(m.(ptt := m.ptt.(status := s)), env);
    }
  }

  lemma DeliveredUp(m: Machine, env: Env)
    requires WillHangUp(m) && !m.halted
    ensures WillHangUp(Delivered(m, env)) <==> !Strands(m, Deliver, env)
  {
    if m.queue != [] {
      assert m.queue == [m.queue[0]] + m.queue[1..];
    }
  }

  lemma GroupsAddedUp(m: Machine, numbers: seq<string>, env: Env)
    requires WillHangUp(m) && !m.halted
    ensures WillHangUp(GroupsAdded(m, numbers, env))
  {
    var started := Started(Listed(m, numbers), env);
    assert SpeaksReleased(started) ==> SpeaksReleased(m);
    assert SpeaksReleased(Regrouped(started, env)) ==> SpeaksReleased(started);
  }

  lemma WokenUp(m: Machine)
    requires WillHangUp(m)
    ensures WillHangUp(Woken(m))
  {
  }

  lemma OthersUp(m: Machine, e: Event, env: Env)
    requires WillHangUp(m) && !m.halted
    requires e.KeyDown? || e.KeyUp? || e.Post? || e.MBye? || e.RegroupNotice? || e.RegistrationLost?
             || e.SingleCallCleared? || e.ExitRequested?
    ensures WillHangUp(Step(m, e, env))
  {
  }

  // One handler: somebody stays due to hang up unless the handler strands the floor.
  lemma StepKeepsHangupDue(m: Machine, e: Event, env: Env)
    requires Admissible(e) && WillHangUp(m)
    ensures WillHangUp(Step(m, e, env)) <==> !Strands(m, e, env)
  {
    if m.halted {
    } else {
      match e
      case CallReport(call) => CallReportUp(m, call, env);
      case MInvite(group, speaker) => MInviteUp(m, group, speaker, env);
      case RightResponse(response) => ResponseUp(m, response, env);
      case PttReport(report) => ReportedUp(m, report, env);
      case Deliver => DeliveredUp(m, env);
      case GroupInfo(numbers) => GroupsAddedUp(m, numbers, env);
      case KeyUpWake => WokenUp(m);
      case _ => OthersUp(m, e, env);
    }
  }

  // ---- speaking with the key up, over runs ----

  ghost predicate Unstranded(m: Machine, actions: seq<Action>)
    decreases |actions|
  {
    actions == [] ||
    (!Strands(m, actions[0].event, actions[0].env)
     && Unstranded(Step(m, actions[0].event, actions[0].env), actions[1..]))
  }

  lemma {:induction false} RunKeepsHangupDue(m: Machine, actions: seq<Action>)
    requires WillHangUp(m)
    requires AllAdmissible(actions) && Unstranded(m, actions)
    ensures WillHangUp(Run(m, actions))
    decreases |actions|
  {
    if actions == [] {
    } else {
      StepKeepsHangupDue(m, actions[0].event, actions[0].env);
      RunKeepsHangupDue(Step(m, actions[0].event, actions[0].env), actions[1..]);
    }
  }

  // Every handler meets no single call and no exit flag.
  ghost predicate Undisturbed(m: Machine, actions: seq<Action>)
    decreases |actions|
  {
    actions == [] ||
    (!SingleCall(m, actions[0].env) && !m.exiting
     && Undisturbed(Step(m, actions[0].event, actions[0].env), actions[1..]))
  }

  lemma {:induction false} UndisturbedIsUnstranded(m: Machine, actions: seq<Action>)
    requires Named(m.ptt) && AllAdmissible(actions) && Undisturbed(m, actions)
    ensures Unstranded(m, actions)
    decreases |actions|
  {
    if actions == [] {
    } else {
      StepKeepsSpeaker(m, actions[0].event, actions[0].env);
      UndisturbedIsUnstranded(Step(m, actions[0].event, actions[0].env), actions[1..]);
    }
  }

  // ---- draining ----

  // Sleepers wake and queued commands arrive, in any order; nothing else happens.
  ghost predicate Drains(actions: seq<Action>) {
    forall a | a in actions :: a.event in {KeyUpWake, Deliver}
  }

  function Pending(m: Machine): nat {
    2 * m.asleep + |m.queue|
  }

  lemma DeliveryShortens(m: Machine, env: Env)
    requires m.queue != []
    ensures
      var m' := Delivered(m, env);
      m'.queue == m.queue[1..] && m'.asleep == m.asleep
      && m'.exiting == m.exiting && m'.halted == m.halted && (m.key == Up ==> m'.key == Up)
  {
  }

  // Waking a sleeper or delivering a command leaves less to do, so draining ends in any order; with
  // nothing to wake or deliver, nothing happens.
  lemma DrainStepShortens(m: Machine, e: Event, env: Env)
    requires !m.halted && e in {KeyUpWake, Deliver}
    ensures
      var m' := Step(m, e, env);
      && m'.exiting == m.exiting && m'.halted == m.halted && (m.key == Up ==> m'.key == Up)
      && if (if e.Deliver? then m.queue != [] else m.asleep > 0) then Pending(m') < Pending(m) else m' == m
  {
    if e.Deliver? && m.queue != [] {
      DeliveryShortens(m, env);
    }
  }

  // However a terminal whose key is up is drained, in the end it is not SPEAKING.
  lemma {:induction false} DrainingEndsSpeech(m: Machine, drain: seq<Action>)
    requires WillHangUp(m) && !m.exiting && m.key == Up
    requires Drains(drain) && Run(m, drain).asleep == 0 && Run(m, drain).queue == []
    ensures Run(m, drain).ptt.status != Speaking && Run(m, drain).key == Up
    decreases |drain|
  {
    if drain == [] {
    } else {
      var e, env := drain[0].event, drain[0].env;
      StepKeepsHangupDue(m, e, env);
      if !m.halted {
        DrainStepShortens(m, e, env);
      }
      DrainingEndsSpeech(Step(m, e, env), drain[1..]);
    }
  }

  // One way to drain that comes to an end: every sleeper first, then every command.
  function Drained(m: Machine, envs: nat -> Env): Machine
    decreases Pending(m)
  {
    if m.halted then m
    else if m.asleep > 0 then Drained(Woken(m), envs)
    else if m.queue != [] then
      DeliveryShortens(m, envs(|m.queue|));
      Drained(Delivered(m, envs(|m.queue|)), envs)
    else m
  }

  lemma {:induction false} DrainingComesToAnEnd(m: Machine, envs: nat -> Env) returns (drain: seq<Action>)
    requires !m.halted
    ensures Drains(drain) && Run(m, drain) == Drained(m, envs)
    ensures Drained(m, envs).asleep == 0 && Drained(m, envs).queue == []
    decreases Pending(m)
  {
    if m.asleep > 0 {
      var rest := DrainingComesToAnEnd(Woken(m), envs);
      drain := [Action(KeyUpWake, envs(0))] + rest;
    } else if m.queue != [] {
      var env := envs(|m.queue|);
      DeliveryShortens(m, env);
      var rest := DrainingComesToAnEnd(Delivered(m, env), envs);
      drain := [Action(Deliver, env)] + rest;
    } else {
      drain := [];
    }
  }

  // In an undisturbed run from the start, draining at any point, in any order, ends the speech of a
  // released key.
  lemma UndisturbedRunDrains(actions: seq<Action>, drain: seq<Action>)
    requires AllAdmissible(actions) && Undisturbed(START, actions) && Drains(drain)
    requires var m := Run(START, actions); m.key == Up && !m.exiting
    requires var m' := Run(Run(START, actions), drain); m'.asleep == 0 && m'.queue == []
    ensures Run(Run(START, actions), drain).ptt.status != Speaking
  {
    UndisturbedIsUnstranded(START, actions);
    RunKeepsHangupDue(START, actions);
    DrainingEndsSpeech(Run(START, actions), drain);
  }

  // With a single call on top, one m-Invite naming this terminal leaves it speaking for good.
  lemma SingleCallStrands()
    ensures
      var m := Step(START, MInvite(Some("1"), Some("9")), CALM.(callOnTop := true));
      SpeaksReleased(m) && !HangupDue(m)
  {
    assert '9' in "9";
    MInviteUp(START, Some("1"), Some("9"), CALM.(callOnTop := true));
  }

  // ---- group lists ----

  // The stored current group is kept when still listed, else it becomes the first of the list;
  // an empty list blanks it.
  lemma GroupInfoKeepsCurrentListed(m: Machine, numbers: seq<string>, env: Env)
    requires !m.halted
    ensures
      var m' := Step(m, GroupInfo(numbers), env);
      && (numbers == [] ==> m'.currentGroup == Some(""))
      && (numbers != [] ==> m'.currentGroup.Some? && m'.currentGroup.value in numbers)
      && (IsGroup(numbers, m.currentGroup) ==> m'.currentGroup == m.currentGroup)
      && m'.groups.list == numbers
  {
    StartedKeepsGroups(Listed(m, numbers), env);
  }

  // A regrouping outside a single call leaves PTT idle or on a listed group. The handler gets
  // there exactly when the PTT group is set, or need not be looked at.
  lemma RegroupingKeepsFloorListed(m: Machine, numbers: seq<string>, env: Env)
    requires !m.halted && m.groups.dynamic
    requires m.call.state == CallIdle || !env.callOnTop
    ensures
      var m' := Step(m, GroupInfo(numbers), env);
      && (m'.halted <==> numbers != [] && m.ptt.status !in {Idle, Init} && m.ptt.group.None?)
      && (!m'.halted ==>
            (m'.ptt.status == Idle || (m'.ptt.group.Some? && m'.ptt.group.value in numbers))
            && m'.groups == Groups(numbers, map[], false))
  {
    StartedKeepsGroups(Listed(m, numbers), env);
  }

  // The floor's handlers move the group manager exactly as its own step relation says.
  lemma StepFollowsRoster(m: Machine, e: Event, env: Env)
    requires !m.halted && !Step(m, e, env).halted
    requires e.GroupInfo? || e.RegroupNotice? || e.RegistrationLost?
    ensures Step(m, e, env).groups
         == GroupRoster.RosterStep(m.groups,
              match e
              case GroupInfo(numbers) => GroupRoster.Listed(numbers)
              case RegroupNotice => GroupRoster.Announced
              case _ => GroupRoster.Dropped)
  {
    if e.GroupInfo? {
      StartedKeepsGroups(Listed(m, e.numbers), env);
    }
  }

  // A failed single call opens the floor without a group; the next regrouping then fails.
  const HALT: seq<Action> := [
    Action(Post(MakeCall(Some("5"))), CALM), Action(Deliver, CALM.(singleOk := false)),
    Action(RegroupNotice, CALM), Action(GroupInfo(["1"]), CALM)]

  lemma FailedCallFreesFloor(m: Machine)
    requires m == START.(queue := [MakeCall(Some("5"))])
    ensures Step(m, Deliver, CALM.(singleOk := false)) == START.(ptt := FreeFloor(NEW_PTT))
  {
  }

  lemma RegroupingCanHalt()
    ensures AllAdmissible(HALT) && Run(START, HALT).halted
  {
    assert '9' in "9";
    var make := MakeCall(Some("5"));
    var m1 := START.(queue := [make]);
    var m2 := START.(ptt := FreeFloor(NEW_PTT));
    assert Step(START, Post(make), CALM) == m1;
    FailedCallFreesFloor(m1);
    var m3 := m2.(groups := Groups([], map[], true));
    assert Step(m2, RegroupNotice, CALM) == m3;
    var m4 := Step(m3, GroupInfo(["1"]), CALM);
    RegroupingKeepsFloorListed(m3, ["1"], CALM);
    RunUnrolls(START, HALT, [START, m1, m2, m3, m4]);
  }
}
