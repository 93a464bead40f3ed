/**
  What the floor keeps over every run: who may be named as speaker, and that a released key
  cannot leave the terminal speaking.
 */
module FloorSafety {
  import opened Basics
  import opened PttState
  import opened FloorSpec

  // ---- the speaker ----

  // A listener hears somebody.
  ghost predicate Named(p: Ptt) {
    p.status == Listening ==> !Blank(p.speaker)
  }

  // An open floor has no speaker.
  ghost predicate Silent(p: Ptt) {
    p.status == Free ==> Blank(p.speaker)
  }

  // A listener hears somebody, unless it is the terminal itself under a blank login.
  ghost predicate Heard(p: Ptt, user: string) {
    p.status == Listening ==> !Blank(p.speaker) || p.speaker == Some(user)
  }

  // A speaker number is null, empty, or says something.
  ghost predicate Plain(p: Ptt) {
    Blank(p.speaker) ==> Empty(p.speaker)
  }

  // A login that is empty, or says something.
  predicate PlainName(user: string) {
    BlankText(user) ==> user == ""
  }

  // Whatever held of p holds of p'.
  ghost predicate NoWorse(p: Ptt, p': Ptt, user: string) {
    && (Named(p) ==> Named(p'))
    && (Silent(p) ==> Silent(p'))
    && (Heard(p, user) ==> Heard(p', user))
    && (Plain(p) && PlainName(user) ==> Plain(p'))
  }

  // What native code is taken to deliver.
  ghost predicate Admissible(e: Event) {
    && (e.RightResponse? ==> e.response in {Accepted, Busy, Waiting, Rejected, Canceled, Forbidden})
    && (e.PttReport? && e.report.status == Free ==> Empty(e.report.speaker))
  }

  // A group call answered with the key down while a single call is on top: the own user becomes the
  // speaker, and the status stays what it was.
  ghost predicate TakesName(m: Machine, e: Event, env: Env) {
    && !m.halted
    && e.CallReport? && e.call.state == Talking && !IsError(e.call.errorCode)
    && IsGroup(m.groups.list, e.call.number) && !m.force
    && m.key == Down && env.callOnTop
  }

  // LISTENING comes to name a blank login.
  ghost predicate Unnames(m: Machine, e: Event, env: Env) {
    TakesName(m, e, env) && m.ptt.status == Listening && BlankText(env.user)
  }

  // FREE comes to name a speaker: a group list ends INIT with the key released and the speaker stays,
  // or the own user replaces a speaker of spaces that an earlier login left behind.
  ghost predicate Leaks(m: Machine, e: Event, env: Env) {
    || (&& !m.halted
        && e.GroupInfo?
        && m.ptt.status == Init && m.key == Up && !Blank(m.ptt.speaker)
        && CurrentGroup(Listed(m, e.numbers)).Some?)
    || (&& TakesName(m, e, env)
        && m.ptt.status == Free && (e.call.callId >= 0 || m.ptt.callId == e.call.callId)
        && !Empty(m.ptt.speaker) && m.ptt.speaker != Some(env.user) && !BlankText(env.user))
  }

  lemma SettledNoWorse(m: Machine, reported: Status, mine: bool, env: Env)
    ensures NoWorse(m.ptt, Settled(m, reported, mine, env).ptt, env.user)
  {
    var promoted := Promoted(m, reported, mine, env);
    assert NoWorse(m.ptt, promoted.ptt, env.user);
    assert NoWorse(m.ptt, Claimed(promoted, mine).ptt, env.user);
  }

  lemma RoutedKeepsFloor(m: Machine, before: Status, call: Call, env: Env)
    ensures
      var p := Routed(m, before, call, env).ptt;
      p == m.ptt || p == m.ptt.(callId := call.callId)
  {
  }

  // An answered group call, once showCallState has noted it as talking.
  lemma TalkingExact(m: Machine, call: Call, env: Env)
    requires m.pttCall == Talking
    ensures
      var p, p' := m.ptt, GroupTalking(m, call, env).ptt;
      var takes := m.key == Down && SingleCall(m, env);
      && (Named(p) ==> (Named(p') <==> !(takes && p.status == Listening && BlankText(env.user))))
      && (Silent(p) ==>
            (Silent(p') <==> !(takes && p.status == Free && p.callId == call.callId && !Empty(p.speaker)
                               && p.speaker != Some(env.user) && !BlankText(env.user))))
      && (Heard(p, env.user) ==> Heard(p', env.user))
      && (Plain(p) && PlainName(env.user) ==> Plain(p'))
  {
    var m' := m.(ptt := Connected(m, call, env));
    SettledNoWorse(m', m'.ptt.status, m'.ptt.speaker == Some(env.user), env);
  }

  lemma EndedNoWorse(m: Machine, call: Call, env: Env)
    ensures NoWorse(m.ptt, GroupEnded(m, call, env).ptt, env.user)
  {
    var c := CancelRight(m, env);
    forall p | p in {FreeFloor(m.ptt), m.ptt.(status := Fallback(m.ptt.speaker)), c.ptt.(status := Canceling)}
      ensures NoWorse(m.ptt, RefreshedState(m.(ptt := p), env).ptt, env.user)
    {
      SettledNoWorse(m.(ptt := p), p.status, p.speaker == Some(env.user), env);
    }
    assert c.(ptt := c.ptt.(status := Canceling)) == m.(ptt := c.ptt.(status := Canceling));
    var freed := RefreshedState(m.(ptt := FreeFloor(m.ptt)), env);
    RoutedKeepsFloor(freed, Listening, call, env);
    RoutedKeepsFloor(m, m.ptt.status, call, env);
  }

  lemma CallFailedNoWorse(m: Machine, call: Call, env: Env)
    ensures NoWorse(m.ptt, CallFailed(m, call, env).ptt, env.user)
  {
  }

  lemma GroupCallExact(m: Machine, call: Call, env: Env)
    requires !m.halted && !IsError(call.errorCode) && IsGroup(m.groups.list, call.number) && !m.force
    ensures
      var p, p' := m.ptt, GroupCallShown(m, call, env).ptt;
      && (Named(p) ==> (Named(p') <==> !Unnames(m, CallReport(call), env)))
      && (Silent(p) ==> (Silent(p') <==> !Leaks(m, CallReport(call), env)))
      && (Heard(p, env.user) ==> Heard(p', env.user))
      && (Plain(p) && PlainName(env.user) ==> Plain(p'))
  {
    var m' := m.(pttCall := call.state,
                 ptt := if call.callId >= 0 then m.ptt.(callId := call.callId) else m.ptt);
    match call.state
    case Talking =>
      TalkingExact(m', call, env);
      RoutedKeepsFloor(GroupTalking(m', call, env), m.ptt.status, call, env);
    case Ended => EndedNoWorse(m', call, env);
    case _ => RoutedKeepsFloor(m', m.ptt.status, call, env);
  }

  // A call report keeps the speaker rules exactly unless it names a blank login or leaks.
  lemma CallShownExact(m: Machine, call: Call, env: Env)
    requires !m.halted
    ensures
      var p, p' := m.ptt, CallShown(m, call, env).ptt;
      && (Named(p) ==> (Named(p') <==> !Unnames(m, CallReport(call), env)))
      && (Silent(p) ==> (Silent(p') <==> !Leaks(m, CallReport(call), env)))
      && (Heard(p, env.user) ==> Heard(p', env.user))
      && (Plain(p) && PlainName(env.user) ==> Plain(p'))
  {
    if IsError(call.errorCode) {
      CallFailedNoWorse(m, call, env);
    } else if !IsGroup(m.groups.list, call.number) {
      RoutedKeepsFloor(m, m.ptt.status, call, env);
    } else if !m.force {
      GroupCallExact(m, call, env);
    }
  }

  lemma RefreshedNoWorse(m: Machine, env: Env)
    ensures NoWorse(m.ptt, RefreshedState(m, env).ptt, env.user)
  {
    SettledNoWorse(m, m.ptt.status, m.ptt.speaker == Some(env.user), env);
  }

  lemma InvitedSilentlyNoWorse(m: Machine, group: Option<string>, speaker: Option<string>, env: Env)
    ensures NoWorse(m.ptt, InvitedSilently(m, group, speaker, env).ptt, env.user)
  {
    RefreshedNoWorse(m.(ptt := FreeFloor(m.ptt)), env);
    RefreshedKeepsOpen(m.(ptt := FreeFloor(m.ptt)), env);
  }

  lemma InvitedNoWorse(m: Machine, group: Option<string>, speaker: Option<string>, env: Env)
    ensures NoWorse(m.ptt, InvitedOutsideCall(m, group, speaker, env).ptt, env.user)
  {
    if Blank(speaker) {
      InvitedSilentlyNoWorse(m, group, speaker, env);
    } else {
      var p := m.ptt.(speaker := speaker,
                      status := if speaker == Some(env.user) then Speaking else Listening);
      RefreshedNoWorse(m.(ptt := p), env);
      RefreshedKeepsOpen(m.(ptt := p), env);
      if m.ptt.status in {Waiting, Applying, Rejected} {
        RefreshedNoWorse(m.(ptt := m.ptt.(speaker := speaker)), env);
      }
    }
  }

  // No refresh closes the floor, so mInviteIndicate's own IDLE branch is never taken.
  lemma RefreshedKeepsOpen(m: Machine, env: Env)
    requires m.ptt.status != Idle
    ensures RefreshedState(m, env).ptt.status != Idle
  {
  }

  lemma RespondedNoWorse(m: Machine, response: Status, env: Env)
    requires response in {Accepted, Busy, Waiting, Rejected, Canceled, Forbidden}
    ensures NoWorse(m.ptt, Responded(m, response, env).ptt, env.user)
  {
    forall s | s in {Accepted, response, Fallback(m.ptt.speaker)} && s != Busy && s != Forbidden
      ensures NoWorse(m.ptt, RefreshedState(m.(ptt := m.ptt.(status := s)), env).ptt, env.user)
    {
      RefreshedNoWorse(m.(ptt := m.ptt.(status := s)), env);
    }
  }

  lemma ReportedNoWorse(m: Machine, src: Ptt, env: Env)
    requires src.status == Free ==> Empty(src.speaker)
    ensures NoWorse(m.ptt, ReportedState(m, src, env).ptt, env.user)
  {
    SettledNoWorse(Absorbed(m, src), src.status, Completed(m.ptt, src).speaker == Some(env.user), env);
  }

  lemma StartedKeepsGroups(m: Machine, env: Env)
    ensures
      var m' := Started(m, env);
      && m'.groups == m.groups && m'.currentGroup == m.currentGroup
      && m'.halted == m.halted && m'.call == m.call
      && (m.ptt.status != Init ==> m' == m)
      && (m.ptt.status == Init ==>
            m'.ptt.status == Idle || (m'.ptt.group.Some? && m'.ptt.group.value in m.groups.list))
  {
  }

  lemma StartedExact(m: Machine, env: Env)
    ensures
      var p, p' := m.ptt, Started(m, env).ptt;
      && (Named(p) ==> Named(p'))
      && (Silent(p) ==> (Silent(p') <==> !(p.status == Init && m.key == Up && !Blank(p.speaker)
                                           && CurrentGroup(m).Some?)))
      && (Heard(p, env.user) ==> Heard(p', env.user))
      && (Plain(p) ==> Plain(p'))
  {
  }

  lemma RegroupedFloor(m: Machine, env: Env)
    ensures
      var p := Regrouped(m, env).ptt;
      p == m.ptt
      || (p == NEW_PTT && (m.groups.list == []
                           || (m.ptt.group.Some? && m.ptt.group.value !in m.groups.list)))
  {
  }

  lemma GroupsAddedExact(m: Machine, numbers: seq<string>, env: Env)
    requires !m.halted
    ensures
      var p, p' := m.ptt, GroupsAdded(m, numbers, env).ptt;
      && (Named(p) ==> Named(p'))
      && (Silent(p) ==> (Silent(p') <==> !Leaks(m, GroupInfo(numbers), env)))
      && (Heard(p, env.user) ==> Heard(p', env.user))
      && (Plain(p) ==> Plain(p'))
  {
    var listed := Listed(m, numbers);
    StartedExact(listed, env);
    StartedKeepsGroups(listed, env);
    RegroupedFloor(Started(listed, env), env);
  }

  lemma CheckedNoWorse(m: Machine, ok: bool, env: Env)
    ensures NoWorse(m.ptt, CheckResult(m, ok).ptt, env.user)
    ensures NoWorse(m.ptt, CancelRight(m, env).ptt, env.user)
    ensures NoWorse(m.ptt, Applied(m, env).ptt, env.user)
  {
  }

  lemma HandledNoWorse(m: Machine, command: Command, env: Env)
    ensures NoWorse(m.ptt, Handled(m, command, env).ptt, env.user)
  {
    match command
    case Apply => CheckedNoWorse(m, true, env);
    case Cancel => CheckedNoWorse(m.(ptt := m.ptt.(status := Fallback(m.ptt.speaker))), true, env);
    case MakeCall(number) =>
      CheckedNoWorse(m.(call := m.call.(state := Dialing, number := number)), false, env);
    case _ =>
  }

  lemma DeliveredNoWorse(m: Machine, env: Env)
    ensures NoWorse(m.ptt, Delivered(m, env).ptt, env.user)
  {
    if m.queue != [] {
      HandledNoWorse(m.(queue := m.queue[1..]), m.queue[0], env);
    }
  }

  lemma OthersNoWorse(m: Machine, e: Event, env: Env)
    requires !m.halted
    requires !e.CallReport? && !e.MInvite? && !e.RightResponse? && !e.PttReport? && !e.GroupInfo?
    ensures NoWorse(m.ptt, Step(m, e, env).ptt, env.user)
  {
    match e
    case Deliver => DeliveredNoWorse(m, env);
    case _ =>
  }

  // One handler: LISTENING keeps a speaker exactly unless it comes to name a blank login, and FREE
  // keeps none exactly unless the handler leaks one.
  lemma StepKeepsSpeaker(m: Machine, e: Event, env: Env)
    requires Admissible(e)
    ensures Named(m.ptt) ==> (Named(Step(m, e, env).ptt) <==> !Unnames(m, e, env))
    ensures Silent(m.ptt) ==> (Silent(Step(m, e, env).ptt) <==> !Leaks(m, e, env))
    ensures Heard(m.ptt, env.user) ==> Heard(Step(m, e, env).ptt, env.user)
    ensures Plain(m.ptt) && PlainName(env.user) ==> Plain(Step(m, e, env).ptt)
  {
    if m.halted {
    } else {
      match e
      case CallReport(call) => CallShownExact(m, call, env);
      case MInvite(group, speaker) =>
        InvitedNoWorse(m, group, speaker, env);
        InvitedNoWorse(CallCleared(m), group, speaker, env);
      case RightResponse(response) => RespondedNoWorse(m, response, env);
      case PttReport(report) => ReportedNoWorse(m, report, env);
      case GroupInfo(numbers) => GroupsAddedExact(m, numbers, env);
      case _ => OthersNoWorse(m, e, env);
    }
  }
}
