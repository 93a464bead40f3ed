/**
  SPEAKING means this terminal's own voice: the speaker it names is the logged-in user. Only a
  native status report can make it name somebody else.
 */
module FloorVoice {
  import opened Basics
  import opened PttState
  import opened FloorSpec
  import opened FloorSafety
  import opened FloorRuns

  ghost predicate OwnVoice(p: Ptt, user: string) {
    p.status == Speaking ==> p.speaker == Some(user)
  }

  // LISTENING to somebody else with the key down, a claim of the floor for the own user turns
  // into SPEAKING; only a running PTT call also corrects the speaker.
  ghost predicate ClaimsOthers(m: Machine, reported: Status, mine: bool, env: Env) {
    && mine && m.key == Down && !SingleCall(m, env)
    && m.ptt.status == Listening && m.ptt.speaker != Some(env.user)
    && (m.pttCall != Talking || reported == Speaking)
  }

  // A listener that hears nobody takes an answered group call for its own voice.
  ghost predicate SpeaksForNobody(m: Machine, e: Event, env: Env) {
    && !m.halted
    && e.CallReport? && e.call.state == Talking && !IsError(e.call.errorCode)
    && IsGroup(m.groups.list, e.call.number) && !m.force
    && m.key == Up && m.ptt.status == Listening
    && Empty(m.ptt.speaker) && m.ptt.speaker != Some(env.user)
  }

  ghost predicate Misnames(m: Machine, e: Event, env: Env) {
    && !m.halted
    && e.PttReport?
    && e.report.status !in {Free, Waiting, Rejected}
    && ClaimsOthers(m, e.report.status, e.report.speaker == Some(env.user), env)
  }

  lemma SettledVoice(m: Machine, reported: Status, mine: bool, env: Env)
    requires OwnVoice(m.ptt, env.user)
    ensures OwnVoice(Settled(m, reported, mine, env).ptt, env.user) <==> !ClaimsOthers(m, reported, mine, env)
  {
    var promoted := Promoted(m, reported, mine, env);
    var claimed := Claimed(promoted, mine);
    assert OwnVoice(claimed.ptt, env.user) ==> OwnVoice(Withdrawn(claimed, env).ptt, env.user);
  }

  lemma RefreshedVoice(m: Machine, env: Env)
    requires OwnVoice(m.ptt, env.user)
    ensures OwnVoice(RefreshedState(m, env).ptt, env.user)
  {
    SettledVoice(m, m.ptt.status, m.ptt.speaker == Some(env.user), env);
  }

  lemma ReportedVoice(m: Machine, src: Ptt, env: Env)
    requires OwnVoice(m.ptt, env.user) && !m.halted
    ensures OwnVoice(ReportedState(m, src, env).ptt, env.user) <==> !Misnames(m, PttReport(src), env)
  {
    SettledVoice(Absorbed(m, src), src.status, Completed(m.ptt, src).speaker == Some(env.user), env);
  }

  lemma TalkingVoice(m: Machine, call: Call, env: Env)
    requires OwnVoice(m.ptt, env.user)
    ensures OwnVoice(GroupTalking(m, call, env).ptt, env.user)
            <==> !(m.key == Up && m.ptt.status == Listening && Empty(m.ptt.speaker) && m.ptt.speaker != Some(env.user))
  {
    var connected := m.(ptt := Connected(m, call, env));
    if OwnVoice(connected.ptt, env.user) {
      RefreshedVoice(connected, env);
    }
  }

  lemma EndedVoice(m: Machine, call: Call, env: Env)
    requires OwnVoice(m.ptt, env.user)
    ensures OwnVoice(GroupEnded(m, call, env).ptt, env.user)
  {
    var c := CancelRight(m, env);
    forall p | p in {FreeFloor(m.ptt), m.ptt.(status := Fallback(m.ptt.speaker)), c.ptt.(status := Canceling)}
      ensures OwnVoice(RefreshedState(m.(ptt := p), env).ptt, env.user)
    {
      RefreshedVoice(m.(ptt := p), env);
    }
    assert c.(ptt := c.ptt.(status := Canceling)) == m.(ptt := c.ptt.(status := Canceling));
    RoutedKeepsFloor(RefreshedState(m.(ptt := FreeFloor(m.ptt)), env), Listening, call, env);
    RoutedKeepsFloor(m, m.ptt.status, call, env);
  }

  lemma CallShownVoice(m: Machine, call: Call, env: Env)
    requires OwnVoice(m.ptt, env.user) && !m.halted
    ensures OwnVoice(CallShown(m, call, env).ptt, env.user) <==> !SpeaksForNobody(m, CallReport(call), env)
  {
    if IsError(call.errorCode) {
    } else if !IsGroup(m.groups.list, call.number) {
      RoutedKeepsFloor(m, m.ptt.status, call, env);
    } else if !m.force {
      GroupCallShownVoice(m, call, env);
    }
  }

  lemma GroupCallShownVoice(m: Machine, call: Call, env: Env)
    requires OwnVoice(m.ptt, env.user)
    ensures OwnVoice(GroupCallShown(m, call, env).ptt, env.user)
            <==> !(call.state == Talking && m.key == Up && m.ptt.status == Listening
                   && Empty(m.ptt.speaker) && m.ptt.speaker != Some(env.user))
  {
    var m' := m.(pttCall := call.state,
                 ptt := if call.callId >= 0 then m.ptt.(callId := call.callId) else m.ptt);
    match call.state
    case Talking =>
      TalkingVoice(m', call, env);
      RoutedKeepsFloor(GroupTalking(m', call, env), m.ptt.status, call, env);
    case Ended => EndedVoice(m', call, env);
    case _ => RoutedKeepsFloor(m', m.ptt.status, call, env);
  }

  lemma InvitedVoice(m: Machine, group: Option<string>, speaker: Option<string>, env: Env)
    requires OwnVoice(m.ptt, env.user)
    ensures OwnVoice(InvitedOutsideCall(m, group, speaker, env).ptt, env.user)
  {
    if Blank(speaker) {
      RefreshedVoice(m.(ptt := FreeFloor(m.ptt)), env);
      RefreshedKeepsOpen(m.(ptt := FreeFloor(m.ptt)), env);
    } else {
      var p := m.ptt.(speaker := speaker,
                      status := if speaker == Some(env.user) then Speaking else Listening);
      RefreshedVoice(m.(ptt := p), env);
      RefreshedKeepsOpen(m.(ptt := p), env);
      if m.ptt.status in {Waiting, Applying, Rejected} {
        RefreshedVoice(m.(ptt := m.ptt.(speaker := speaker)), env);
      }
    }
  }

  lemma RespondedVoice(m: Machine, response: Status, env: Env)
    requires OwnVoice(m.ptt, env.user) && response != Speaking
    ensures OwnVoice(Responded(m, response, env).ptt, env.user)
  {
    forall s | s != Speaking
      ensures OwnVoice(RefreshedState(m.(ptt := m.ptt.(status := s)), env).ptt, env.user)
    {
      RefreshedVoice(m.(ptt := m.ptt.(status := s)), env);
    }
  }

  lemma OthersVoice(m: Machine, e: Event, env: Env)
    requires OwnVoice(m.ptt, env.user) && !m.halted
    requires !e.CallReport? && !e.MInvite? && !e.RightResponse? && !e.PttReport? && !e.GroupInfo?
    ensures OwnVoice(Step(m, e, env).ptt, env.user)
  {
    match e
    case Deliver =>
      if m.queue != [] {
        HandledVoice(m.(queue := m.queue[1..]), m.queue[0], env);
      }
    case _ =>
  }

  lemma HandledVoice(m: Machine, command: Command, env: Env)
    requires OwnVoice(m.ptt, env.user)
    ensures OwnVoice(Handled(m, command, env).ptt, env.user)
  {
  }

  lemma GroupsAddedVoice(m: Machine, numbers: seq<string>, env: Env)
    requires OwnVoice(m.ptt, env.user)
    ensures OwnVoice(GroupsAdded(m, numbers, env).ptt, env.user)
  {
    var started := Started(Listed(m, numbers), env);
    assert OwnVoice(started.ptt, env.user);
    RegroupedFloor(started, env);
  }

  // One handler: SPEAKING keeps naming the own user exactly unless a native report misnames it, or a
  // listener to nobody answers a group call.
  lemma StepKeepsVoice(m: Machine, e: Event, env: Env)
    requires Admissible(e) && OwnVoice(m.ptt, env.user)
    ensures OwnVoice(Step(m, e, env).ptt, env.user) <==> !Misnames(m, e, env) && !SpeaksForNobody(m, e, env)
  {
    if m.halted {
    } else {
      match e
      case CallReport(call) => CallShownVoice(m, call, env);
      case MInvite(group, speaker) =>
        InvitedVoice(m, group, speaker, env);
        InvitedVoice(CallCleared(m), group, speaker, env);
      case RightResponse(response) => RespondedVoice(m, response, env);
      case PttReport(report) => ReportedVoice(m, report, env);
      case GroupInfo(numbers) => GroupsAddedVoice(m, numbers, env);
      case _ => OthersVoice(m, e, env);
    }
  }

  // One user throughout, and no report that misnames.
  ghost predicate Truthful(m: Machine, actions: seq<Action>, user: string)
    decreases |actions|
  {
    actions == [] ||
    (actions[0].env.user == user
     && !Misnames(m, actions[0].event, actions[0].env)
     && Truthful(Step(m, actions[0].event, actions[0].env), actions[1..], user))
  }

  // Under one login, blank or not, nobody is never answered, so only a report can misname.
  lemma {:induction false} RunKeepsVoice(m: Machine, actions: seq<Action>, user: string)
    requires Heard(m.ptt, user) && OwnVoice(m.ptt, user)
    requires AllAdmissible(actions) && Truthful(m, actions, user)
    ensures OwnVoice(Run(m, actions).ptt, user)
    decreases |actions|
  {
    if actions == [] {
    } else {
      StepKeepsSpeaker(m, actions[0].event, actions[0].env);
      StepKeepsVoice(m, actions[0].event, actions[0].env);
      RunKeepsVoice(Step(m, actions[0].event, actions[0].env), actions[1..], user);
    }
  }

  // Pressing the key while somebody else speaks, and then a report that names this terminal.
  const MISNAMED: seq<Action> := [
    Action(MInvite(Some("1"), Some("2")), CALM), Action(KeyDown, CALM),
    Action(PttReport(Ptt(Listening, Some("9"), Some("1"), 0, 0)), CALM)]

  lemma ReportCanMisname()
    ensures AllAdmissible(MISNAMED) && !OwnVoice(Run(START, MISNAMED).ptt, CALM.user)
  {
    var heard := Ptt(Listening, Some("2"), Some("1"), -1, 0);
    var m1 := START.(ptt := heard);
    var m2 := m1.(key := Down, queue := [Apply]);
    var report := PttReport(MISNAMED[2].event.report);
    var m3 := Step(m2, report, CALM);
    assert '9' in "9" && '2' in "2" && "2" != "9";
    LeakHears(heard);
    assert Step(m1, KeyDown, CALM) == m2;
    StepKeepsVoice(m2, report, CALM);
    RunUnrolls(START, MISNAMED, [START, m1, m2, m3]);
  }
}
