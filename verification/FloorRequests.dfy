/**
  Asking for the floor: a press asks exactly when the floor is not held, and a request whose key was
  released is called off, unless one of a few named handlers strands it.
 */
module FloorRequests {
  import opened Basics
  import opened PttState
  import opened FloorSpec
  import opened FloorSafety
  import opened FloorRuns

  // ---- the codes a status can have ----

  // BUSY, FORBIDDEN and CLOSED come from the protocol and are never stored.
  predicate Ordinary(p: Ptt) {
    p.status !in {Busy, Forbidden, Closed}
  }

  lemma SettledOrdinary(m: Machine, reported: Status, mine: bool, env: Env)
    ensures Ordinary(m.ptt) ==> Ordinary(Settled(m, reported, mine, env).ptt)
  {
  }

  lemma RefreshedOrdinary(m: Machine, env: Env)
    ensures Ordinary(m.ptt) ==> Ordinary(RefreshedState(m, env).ptt)
  {
    SettledOrdinary(m, m.ptt.status, m.ptt.speaker == Some(env.user), env);
  }

  lemma CallShownOrdinary(m: Machine, call: Call, env: Env)
    requires Ordinary(m.ptt)
    ensures Ordinary(CallShown(m, call, env).ptt)
  {
    if IsError(call.errorCode) {
    } else if !IsGroup(m.groups.list, call.number) {
      RoutedKeepsFloor(m, m.ptt.status, call, env);
    } else if !m.force {
      GroupCallOrdinary(m, call, env);
    }
  }

  lemma GroupCallOrdinary(m: Machine, call: Call, env: Env)
    requires Ordinary(m.ptt)
    ensures Ordinary(GroupCallShown(m, call, env).ptt)
  {
    var m' := m.(pttCall := call.state,
                 ptt := if call.callId >= 0 then m.ptt.(callId := call.callId) else m.ptt);
    match call.state
    case Talking =>
      RefreshedOrdinary(m'.(ptt := Connected(m', call, env)), env);
      RoutedKeepsFloor(GroupTalking(m', call, env), m.ptt.status, call, env);
    case Ended => EndedOrdinary(m', call, env);
    case _ => RoutedKeepsFloor(m', m.ptt.status, call, env);
  }

  lemma EndedOrdinary(m: Machine, call: Call, env: Env)
    requires Ordinary(m.ptt)
    ensures Ordinary(GroupEnded(m, call, env).ptt)
  {
    RoutedKeepsFloor(m, m.ptt.status, call, env);
    match m.ptt.status
    case Speaking => RefreshedOrdinary(m.(ptt := FreeFloor(m.ptt)), env);
    case Listening =>
      RefreshedOrdinary(m.(ptt := FreeFloor(m.ptt)), env);
      RoutedKeepsFloor(RefreshedState(m.(ptt := FreeFloor(m.ptt)), env), Listening, call, env);
    case Waiting =>
      var c := CancelRight(m, env);
      RefreshedOrdinary(c.(ptt := c.ptt.(status := Canceling)), env);
    case _ => RefreshedOrdinary(m.(ptt := m.ptt.(status := Fallback(m.ptt.speaker))), env);
  }

  lemma InvitedSilentlyOrdinary(m: Machine, group: Option<string>, speaker: Option<string>, env: Env)
    requires Ordinary(m.ptt)
    ensures Ordinary(InvitedSilently(m, group, speaker, env).ptt)
  {
    RefreshedOrdinary(m.(ptt := FreeFloor(m.ptt)), env);
  }

  lemma InvitedByOrdinary(m: Machine, group: Option<string>, speaker: Option<string>, env: Env)
    requires Ordinary(m.ptt)
    ensures Ordinary(InvitedBy(m, group, speaker, env).ptt)
  {
    var p := m.ptt.(speaker := speaker);
    if speaker == Some(env.user) {
      RefreshedOrdinary(m.(ptt := p.(status := Speaking)), env);
    } else {
      RefreshedOrdinary(m.(ptt := p), env);
      RefreshedOrdinary(m.(ptt := p.(status := Listening)), env);
    }
  }

  lemma InvitedOrdinary(m: Machine, group: Option<string>, speaker: Option<string>, env: Env)
    requires Ordinary(m.ptt)
    ensures Ordinary(InvitedOutsideCall(m, group, speaker, env).ptt)
  {
    if Blank(speaker) {
      InvitedSilentlyOrdinary(m, group, speaker, env);
    } else {
      InvitedByOrdinary(m, group, speaker, env);
    }
  }

  lemma RespondedOrdinary(m: Machine, response: Status, env: Env)
    requires Ordinary(m.ptt) && response in {Accepted, Busy, Waiting, Rejected, Canceled, Forbidden}
    ensures Ordinary(Responded(m, response, env).ptt)
  {
    RefreshedOrdinary(m.(ptt := m.ptt.(status := Accepted)), env);
    RefreshedOrdinary(m.(ptt := m.ptt.(status := response)), env);
    RefreshedOrdinary(m.(ptt := m.ptt.(status := Fallback(m.ptt.speaker))), env);
  }

  // Only FREE, WAITING and REJECTED reports are ever copied.
  lemma ReportedOrdinary(m: Machine, src: Ptt, env: Env)
    requires Ordinary(m.ptt)
    ensures Ordinary(ReportedState(m, src, env).ptt)
  {
    SettledOrdinary(Absorbed(m, src), src.status, Completed(m.ptt, src).speaker == Some(env.user), env);
  }

  lemma AppliedOrdinary(m: Machine, env: Env)
    requires Ordinary(m.ptt)
    ensures Ordinary(Applied(m, env).ptt)
  {
  }

  lemma DeliveredOrdinary(m: Machine, env: Env)
    requires Ordinary(m.ptt)
    ensures Ordinary(Delivered(m, env).ptt)
  {
    if m.queue != [] {
      match m.queue[0]
      case Apply => AppliedOrdinary(m.(queue := m.queue[1..]), env);
      case _ =>
    }
  }

  lemma GroupsAddedOrdinary(m: Machine, numbers: seq<string>, env: Env)
    requires Ordinary(m.ptt)
    ensures Ordinary(GroupsAdded(m, numbers, env).ptt)
  {
    var started := Started(Listed(m, numbers), env);
    assert Ordinary(started.ptt);
    RegroupedFloor(started, env);
  }

  lemma StepKeepsOrdinary(m: Machine, e: Event, env: Env)
    requires Ordinary(m.ptt) && Admissible(e)
    ensures Ordinary(Step(m, e, env).ptt)
  {
    if m.halted {
    } else {
      match e
      case CallReport(call) => CallShownOrdinary(m, call, env);
      case MInvite(group, speaker) =>
        InvitedOrdinary(m, group, speaker, env);
        InvitedOrdinary(CallCleared(m), group, speaker, env);
      case RightResponse(response) => RespondedOrdinary(m, response, env);
      case PttReport(report) => ReportedOrdinary(m, report, env);
      case GroupInfo(numbers) => GroupsAddedOrdinary(m, numbers, env);
      case Deliver => DeliveredOrdinary(m, env);
      case _ =>
    }
  }

  lemma {:induction false} RunKeepsOrdinary(m: Machine, actions: seq<Action>)
    requires Ordinary(m.ptt) && AllAdmissible(actions)
    ensures Ordinary(Run(m, actions).ptt)
    decreases |actions|
  {
    if actions == [] {
    } else {
      StepKeepsOrdinary(m, actions[0].event, actions[0].env);
      RunKeepsOrdinary(Step(m, actions[0].event, actions[0].env), actions[1..]);
    }
  }

  // ---- pressing ----

  // Nobody at this terminal asks for the floor, has it, or is giving it back.
  predicate Unheld(s: Status) {
    s !in {Applying, Waiting, Accepted, Speaking, Canceling}
  }

  // A press outside a single call asks for the floor exactly when it is not held. Pressing on, it also
  // asks while an earlier request is being given back, but not when closed or when its own user speaks.
  predicate Asks(m: Machine, user: string) {
    && m.call.state in {CallIdle, Ended}
    && if m.key == Up then Unheld(m.ptt.status)
       else m.ptt.status == Canceling
            || (Unheld(m.ptt.status) && m.ptt.status != Idle && m.ptt.speaker != Some(user))
  }

  lemma PressedLaw(m: Machine, env: Env)
    requires Ordinary(m.ptt)
    ensures
      Pressed(m, env) ==
        if m.call.state !in {CallIdle, Ended} then m
        else m.(key := Down, queue := m.queue + if Asks(m, env.user) then [Apply] else [])
  {
    assert m.queue + [] == m.queue;
    if m.call.state !in {CallIdle, Ended} {
    } else if m.key == Up {
      match m.ptt.status
      case Idle => case Init => case Free => case Listening => case Rejected => case Canceled =>
      case _ =>
    } else {
      assert m.(key := Down) == m;
    }
  }

  lemma PressAsks(m: Machine, env: Env)
    requires !m.halted && Ordinary(m.ptt)
    ensures
      Step(m, KeyDown, env) ==
        if m.call.state !in {CallIdle, Ended} then m
        else m.(key := Down, queue := m.queue + if Asks(m, env.user) then [Apply] else [])
  {
    PressedLaw(m, env);
  }

  // The group a request is made for: the one PTT has, or else the stored one while it is listed.
  function RequestGroup(m: Machine): Option<string> {
    if !Blank(m.ptt.group) then m.ptt.group
    else if !Blank(m.currentGroup) && m.currentGroup.value in m.groups.list then m.currentGroup
    else None
  }

  // A press on a floor nobody holds, and its command: with groups and a registered terminal it ends
  // APPLYING for the right group, unless the native request fails; without groups it ends INIT.
  lemma RequestLaw(m: Machine, press: Env, env: Env)
    requires !m.halted && !m.exiting && NoCall(m.call.state) && m.key == Up && m.queue == []
    requires Ordinary(m.ptt) && Unheld(m.ptt.status)
    ensures
      var m' := Run(m, [Action(KeyDown, press), Action(Deliver, env)]);
      var group := RequestGroup(m);
      var open := env.registered && !env.errorShowing;
      && m'.key == Down && m'.queue == []
      && (m'.ptt.status == Applying <==> open && m.groups.list != [] && (env.applyOk || group.None?))
      && (m'.ptt.status == Applying ==>
            m'.ptt.speaker == m.ptt.speaker && m'.ptt.callId == m.ptt.callId
            && (group.Some? ==> m'.ptt.group == group))
      && (open && m.groups.list == [] ==> m'.ptt == m.ptt.(status := Init))
      && (open && m.groups.list != [] && group.Some? && !env.applyOk ==>
            m'.ptt.status == Free && m'.ptt.speaker == None && m'.ptt.group == group)
      && (!open ==> m'.ptt == m.ptt)
  {
    var m1 := m.(key := Down, queue := [Apply]);
    PressAsks(m, press);
    assert m1.queue[1..] == [];
    RunUnrolls(m, [Action(KeyDown, press), Action(Deliver, env)], [m, m1, Step(m1, Deliver, env)]);
  }

  // ---- releasing: a request is called off ----

  ghost predicate AsksReleased(m: Machine) {
    m.ptt.status in {Applying, Waiting} && m.key == Up
  }

  ghost predicate CancelDue(m: Machine) {
    m.asleep > 0 || Cancel in m.queue
  }

  ghost predicate WillCancel(m: Machine) {
    AsksReleased(m) ==> CancelDue(m)
  }

  // Native code puts the released terminal in its queue, and the cancel sent at once succeeds or is
  // not sent at all.
  ghost predicate Queues(m: Machine, env: Env) {
    SingleCall(m, env) || m.groups.list == [] || env.cancelOk
  }

  // The handlers that can leave a released key asking with nobody due to call it off.
  ghost predicate StrandsRequest(m: Machine, e: Event, env: Env) {
    && !m.halted && m.key == Up && m.asleep == 0
    && match e
       case Deliver =>
         && m.queue != [] && Cancel !in m.queue[1..]
         && (|| (m.queue[0] == Cancel && m.exiting && m.ptt.status in {Applying, Waiting})
             || (m.queue[0] == Apply && !m.exiting && Applied(m, env).ptt.status == Applying))
       case RightResponse(response) =>
         Cancel !in m.queue && response == Waiting && m.ptt.status != Speaking && Queues(m, env)
       case PttReport(report) =>
         Cancel !in m.queue && report.status == Waiting && Queues(m, env)
       case _ => false
  }

  lemma SettledAsks(m: Machine, reported: Status, mine: bool, env: Env)
    ensures
      var m' := Settled(m, reported, mine, env);
      && m'.key == m.key && m'.queue == m.queue && m'.asleep == m.asleep
      && (AsksReleased(m') <==> AsksReleased(m) && Queues(m, env))
  {
  }

  lemma RefreshedAsks(m: Machine, env: Env)
    ensures
      var m' := RefreshedState(m, env);
      && m'.key == m.key && m'.queue == m.queue && m'.asleep == m.asleep
      && (AsksReleased(m') <==> AsksReleased(m) && Queues(m, env))
  {
    SettledAsks(m, m.ptt.status, m.ptt.speaker == Some(env.user), env);
  }

  lemma EndedAsks(m: Machine, call: Call, env: Env)
    ensures
      var m' := GroupEnded(m, call, env);
      && m'.key == m.key && m'.queue == m.queue && m'.asleep == m.asleep
      && (AsksReleased(m') ==> AsksReleased(m))
  {
    RoutedKeepsTurn(m, m.ptt.status, call, env);
    match m.ptt.status
    case Speaking => RefreshedAsks(m.(ptt := FreeFloor(m.ptt)), env);
    case Listening =>
      RefreshedAsks(m.(ptt := FreeFloor(m.ptt)), env);
      RoutedKeepsTurn(RefreshedState(m.(ptt := FreeFloor(m.ptt)), env), Listening, call, env);
    case Waiting =>
      var c := CancelRight(m, env);
      RefreshedAsks(c.(ptt := c.ptt.(status := Canceling)), env);
    case _ => RefreshedAsks(m.(ptt := m.ptt.(status := Fallback(m.ptt.speaker))), env);
  }

  lemma TalkingAsks(m: Machine, call: Call, env: Env)
    ensures
      var m' := GroupTalking(m, call, env);
      && m'.key == m.key && m'.queue == m.queue && m'.asleep == m.asleep
      && (AsksReleased(m') ==> AsksReleased(m))
  {
    RefreshedAsks(m.(ptt := Connected(m, call, env)), env);
  }

  lemma GroupCallAsks(m: Machine, call: Call, env: Env)
    ensures
      var m' := GroupCallShown(m, call, env);
      && m'.key == m.key && m'.queue == m.queue && m'.asleep == m.asleep
      && (AsksReleased(m') ==> AsksReleased(m))
  {
    var m' := m.(pttCall := call.state,
                 ptt := if call.callId >= 0 then m.ptt.(callId := call.callId) else m.ptt);
    RoutedKeepsTurn(m', m.ptt.status, call, env);
    match call.state
    case Talking =>
      TalkingAsks(m', call, env);
      RoutedKeepsTurn(GroupTalking(m', call, env), m.ptt.status, call, env);
    case Ended => EndedAsks(m', call, env);
    case _ =>
  }

  lemma CallShownAsks(m: Machine, call: Call, env: Env)
    requires WillCancel(m)
    ensures WillCancel(CallShown(m, call, env))
  {
    RoutedKeepsTurn(m, m.ptt.status, call, env);
    GroupCallAsks(m, call, env);
  }

  lemma InvitedSilentlyAsks(m: Machine, group: Option<string>, speaker: Option<string>, env: Env)
    requires WillCancel(m)
    ensures WillCancel(InvitedSilently(m, group, speaker, env))
  {
    RefreshedAsks(m.(ptt := FreeFloor(m.ptt)), env);
  }

  lemma InvitedByAsks(m: Machine, group: Option<string>, speaker: Option<string>, env: Env)
    requires WillCancel(m)
    ensures WillCancel(InvitedBy(m, group, speaker, env))
  {
    var p := m.ptt.(speaker := speaker);
    if speaker == Some(env.user) {
      RefreshedAsks(m.(ptt := p.(status := Speaking)), env);
    } else {
      RefreshedAsks(m.(ptt := p), env);
      RefreshedAsks(m.(ptt := p.(status := Listening)), env);
    }
  }

  lemma InvitedAsks(m: Machine, group: Option<string>, speaker: Option<string>, env: Env)
    requires WillCancel(m)
    ensures WillCancel(InvitedOutsideCall(m, group, speaker, env))
  {
    if Blank(speaker) {
      InvitedSilentlyAsks(m, group, speaker, env);
    } else {
      InvitedByAsks(m, group, speaker, env);
    }
  }

  lemma RespondedAsks(m: Machine, response: Status, env: Env)
    requires WillCancel(m) && !m.halted && Admissible(RightResponse(response))
    ensures WillCancel(Responded(m, response, env)) <==> !StrandsRequest(m, RightResponse(response), env)
  {
    RefreshedAsks(m.(ptt := m.ptt.(status := Accepted)), env);
    RefreshedAsks(m.(ptt := m.ptt.(status := response)), env);
    RefreshedAsks(m.(ptt := m.ptt.(status := Fallback(m.ptt.speaker))), env);
  }

  lemma ReportedAsks(m: Machine, src: Ptt, env: Env)
    requires WillCancel(m) && !m.halted
    ensures WillCancel(ReportedState(m, src, env)) <==> !StrandsRequest(m, PttReport(src), env)
  {
    SettledAsks(Absorbed(m, src), src.status, Completed(m.ptt, src).speaker == Some(env.user), env);
  }

  lemma HandledAsks(m: Machine, command: Command, env: Env)
    ensures
      var m' := Handled(m, command, env);
      && m'.queue == m.queue && m'.asleep == m.asleep && (m.key == Up ==> m'.key == Up)
      && (AsksReleased(m') && !AsksReleased(m) ==> command == Apply && m.key == Up)
      && (command == Cancel && !m.exiting ==> !AsksReleased(m'))
  {
  }

  lemma DeliveredAsks(m: Machine, env: Env)
    requires WillCancel(m) && !m.halted
    ensures WillCancel(Delivered(m, env)) <==> !StrandsRequest(m, Deliver, env)
  {
    if m.queue != [] {
      assert m.queue == [m.queue[0]] + m.queue[1..];
      HandledAsks(m.(queue := m.queue[1..]), m.queue[0], env);
      assert Applied(m.(queue := m.queue[1..]), env).ptt == Applied(m, env).ptt;
    }
  }

  lemma GroupsAddedAsks(m: Machine, numbers: seq<string>, env: Env)
    requires WillCancel(m)
    ensures WillCancel(GroupsAdded(m, numbers, env))
  {
    var started := Started(Listed(m, numbers), env);
    assert AsksReleased(started) ==> AsksReleased(m);
    assert AsksReleased(Regrouped(started, env)) ==> AsksReleased(started);
  }

  lemma OthersAsk(m: Machine, e: Event, env: Env)
    requires WillCancel(m) && !m.halted
    requires e.KeyDown? || e.KeyUp? || e.KeyUpWake? || e.Post? || e.MBye? || e.RegroupNotice?
             || e.RegistrationLost? || e.SingleCallCleared? || e.ExitRequested?
    ensures WillCancel(Step(m, e, env))
  {
  }

  // One handler: a released request stays due to be called off exactly unless the handler strands it.
  lemma StepKeepsCancelDue(m: Machine, e: Event, env: Env)
    requires Admissible(e) && WillCancel(m)
    ensures WillCancel(Step(m, e, env)) <==> !StrandsRequest(m, e, env)
  {
    if m.halted {
    } else {
      match e
      case CallReport(call) => CallShownAsks(m, call, env);
      case MInvite(group, speaker) =>
        InvitedAsks(m, group, speaker, env);
        InvitedAsks(CallCleared(m), group, speaker, env);
      case RightResponse(response) => RespondedAsks(m, response, env);
      case PttReport(report) => ReportedAsks(m, report, env);
      case Deliver => DeliveredAsks(m, env);
      case GroupInfo(numbers) => GroupsAddedAsks(m, numbers, env);
      case _ => OthersAsk(m, e, env);
    }
  }

  // However it is drained, a released terminal with no request on its way ends neither APPLYING nor
  // WAITING.
  lemma {:induction false} DrainingEndsRequest(m: Machine, drain: seq<Action>)
    requires WillCancel(m) && !m.exiting && m.key == Up && Apply !in m.queue
    requires Drains(drain) && Run(m, drain).asleep == 0 && Run(m, drain).queue == []
    ensures Run(m, drain).ptt.status !in {Applying, Waiting}
    decreases |drain|
  {
    if drain == [] {
    } else {
      var e, env := drain[0].event, drain[0].env;
      StepKeepsCancelDue(m, e, env);
      if !m.halted {
        DrainStepShortens(m, e, env);
        DrainPostsNoApply(m, e, env);
      }
      DrainingEndsRequest(Step(m, e, env), drain[1..]);
    }
  }

  lemma DrainPostsNoApply(m: Machine, e: Event, env: Env)
    requires !m.halted && e in {KeyUpWake, Deliver} && Apply !in m.queue
    ensures Apply !in Step(m, e, env).queue
  {
    if e.Deliver? && m.queue != [] {
      DeliveryShortens(m, env);
    }
  }

  // Whatever the terminal was doing, releasing the key and draining in any order calls a request off.
  lemma ReleaseEndsRequest(m: Machine, up: Env, drain: seq<Action>)
    requires !m.halted && !m.exiting && Apply !in m.queue
    requires Drains(drain)
    requires var m' := Run(Step(m, KeyUp, up), drain); m'.asleep == 0 && m'.queue == []
    ensures Run(Step(m, KeyUp, up), drain).ptt.status !in {Applying, Waiting}
  {
    DrainingEndsRequest(Step(m, KeyUp, up), drain);
  }

  // A request still on its way when the key-up handler wakes is not called off by anybody: a short
  // press whose command arrives late leaves the released terminal APPLYING.
  const TAPPED: seq<Action> := [
    Action(GroupInfo(["1"]), CALM), Action(KeyDown, CALM), Action(KeyUp, CALM), Action(KeyUpWake, CALM),
    Action(Deliver, CALM)]

  lemma LateRequestStrands()
    ensures AllAdmissible(TAPPED)
    ensures AsksReleased(Run(START, TAPPED)) && !CancelDue(Run(START, TAPPED))
  {
    var m1 := START.(groups := Groups(["1"], map[], false), currentGroup := Some("1"));
    var m2 := m1.(key := Down, queue := [Apply]);
    var m3 := m2.(key := Up, asleep := 1);
    var m4 := m1.(queue := [Apply]);
    var m5 := m1.(ptt := NEW_PTT.(status := Applying, group := Some("1")));
    TapArrives(m1, m4, m5);
    assert Step(m1, KeyDown, CALM) == m2;
    assert Step(m2, KeyUp, CALM) == m3;
    assert Step(m3, KeyUpWake, CALM) == m4;
    RunUnrolls(START, TAPPED, [START, m1, m2, m3, m4, m5]);
  }

  lemma TapArrives(m1: Machine, m4: Machine, m5: Machine)
    requires m1 == START.(groups := Groups(["1"], map[], false), currentGroup := Some("1"))
    requires m4 == m1.(queue := [Apply])
    requires m5 == m1.(ptt := NEW_PTT.(status := Applying, group := Some("1")))
    ensures Step(START, GroupInfo(["1"]), CALM) == m1
    ensures Step(m4, Deliver, CALM) == m5
  {
    assert '1' in "1";
  }
}
