/**
  What each handler is for, in explicit values: who has the floor after an invitation, a response, a
  report, a call or a release, and the talk burst they make together.
 */
module FloorLaws {
  import opened Basics
  import opened PttState
  import opened FloorSpec
  import opened FloorSafety
  import opened FloorRuns
  import opened FloorRequests

  // ---- invitations ----

  // Outside a single call, an m-Invite that names nobody opens the floor of its group, but leaves a
  // pending request alone and renews a queued one.
  lemma SilentInviteLaw(m: Machine, group: string, speaker: Option<string>, env: Env)
    requires !m.halted && m.call.state in {CallIdle, Ended} && Blank(speaker)
    ensures
      var m' := Step(m, MInvite(Some(group), speaker), env);
      if m.ptt.status in {Accepted, Applying} then m' == m
      else if m.ptt.status == Waiting then m' == m.(ptt := m.ptt.(status := Applying, speaker := None))
      else m' == m.(ptt := m.ptt.(status := Free, speaker := None, group := Some(group)))
  {
    var freed := m.(ptt := m.ptt.(status := Free, speaker := None));
    assert RefreshedState(freed, env) == freed;
  }

  // One that names the own user gives the floor to a pressed key, and opens it again for a released one.
  lemma OwnInviteLaw(m: Machine, group: string, env: Env)
    requires !m.halted && m.call.state in {CallIdle, Ended} && !m.force && !env.callOnTop && !BlankText(env.user)
    ensures
      var m' := Step(m, MInvite(Some(group), Some(env.user)), env);
      m' == m.(ptt :=
        if m.key == Down then m.ptt.(status := Speaking, speaker := Some(env.user), group := Some(group))
        else m.ptt.(status := Free, speaker := None, group := Some(group)))
  {
    var own := m.(ptt := m.ptt.(status := Speaking, speaker := Some(env.user)));
    assert RefreshedState(own, env)
           == if m.key == Down then own else m.(ptt := m.ptt.(status := Free, speaker := None));
  }

  // One that names somebody else makes the terminal listen, unless its pressed key is asking.
  lemma OtherInviteLaw(m: Machine, group: string, speaker: string, env: Env)
    requires !m.halted && m.call.state in {CallIdle, Ended} && !BlankText(speaker) && speaker != env.user
    ensures
      var m' := Step(m, MInvite(Some(group), Some(speaker)), env);
      m' == m.(ptt :=
        if m.key == Down && m.ptt.status in {Waiting, Applying, Rejected} then m.ptt.(speaker := Some(speaker))
        else m.ptt.(status := Listening, speaker := Some(speaker), group := Some(group)))
  {
    var heard := m.(ptt := m.ptt.(speaker := Some(speaker)));
    var listening := m.(ptt := m.ptt.(status := Listening, speaker := Some(speaker)));
    if m.key == Down && m.ptt.status in {Waiting, Applying, Rejected} {
      assert RefreshedState(heard, env) == heard;
    } else {
      assert RefreshedState(listening, env) == listening;
    }
  }

  // During a shown or forced single call, a listed group's speaker is noted and nothing else is.
  lemma InviteDuringCallLaw(m: Machine, group: string, speaker: Option<string>, env: Env)
    requires !m.halted && m.call.state !in {CallIdle, Ended} && (m.force || env.callOnTop)
    ensures
      var m' := Step(m, MInvite(Some(group), speaker), env);
      m' == if group in m.groups.list && !BlankText(group) && !Blank(speaker)
            then m.(ptt := m.ptt.(status := Listening, speaker := speaker, group := Some(group))) else m
  {
  }

  // An m-Bye and an m-Invite without a group, which is how a timeout arrives, close PTT.
  lemma ClosingLaw(m: Machine, speaker: Option<string>, env: Env)
    requires !m.halted
    ensures Step(m, MBye, env) == m.(ptt := Ptt(Idle, None, None, -1, 0), key := Up)
    ensures Step(m, MInvite(None, speaker), env) == Step(m, MBye, env)
  {
  }

  // A lost registration closes PTT unless it is closed, ends the single call, and forgets the groups.
  lemma RegistrationLaw(m: Machine, env: Env)
    requires !m.halted
    ensures
      var m' := Step(m, RegistrationLost, env);
      && (if m.ptt.status == Idle then m'.ptt == m.ptt && m'.key == m.key
          else m'.ptt == Ptt(Idle, None, None, -1, 0) && m'.key == Up)
      && m'.call.state == CallIdle && (m.call.state == CallIdle ==> m'.call == m.call && m'.force == m.force)
      && (m.call.state != CallIdle ==> !m'.force)
      && m'.groups == Groups([], map[], false)
      && m'.queue == m.queue && m'.asleep == m.asleep && m'.currentGroup == m.currentGroup
  {
  }

  // ---- right responses ----

  // What a response makes of a request, when the floor does not name the own user.
  lemma ResponseLaw(m: Machine, r: Status, env: Env)
    requires !m.halted && m.ptt.status != Speaking && m.ptt.speaker != Some(env.user)
    requires r in {Accepted, Busy, Waiting, Rejected, Canceled, Forbidden}
    ensures
      var m' := Step(m, RightResponse(r), env);
      var plain := m.force || env.callOnTop;
      if r == Forbidden then
        m' == m.(ptt := Ptt(Idle, None, None, -1, 0), queue := m.queue + if m.key == Down then [Apply] else [])
      else if m.key == Down then
        m' == m.(ptt := m.ptt.(status := if r == Busy then Accepted else r))
      else if r in {Rejected, Canceled} then
        m' == m.(ptt := m.ptt.(status := if Blank(m.ptt.speaker) then Free else Listening))
      else if r == Waiting then
        m' == m.(ptt := if !plain && m.groups.list != [] && !env.cancelOk
                        then m.ptt.(status := Free, speaker := None) else m.ptt.(status := Waiting))
      else
        m' == m.(ptt := if !plain && m.pttCall in {CallIdle, Ended}
                        then m.ptt.(status := Free, speaker := None) else m.ptt.(status := Accepted))
  {
  }

  lemma SpeakerIgnoresResponses(m: Machine, r: Status, env: Env)
    requires m.ptt.status == Speaking
    ensures Step(m, RightResponse(r), env) == m
  {
  }

  // ---- native reports ----

  // A FREE report opens the floor, except under a pressed key that asks for it or has it.
  lemma FreeReportLaw(m: Machine, report: Ptt, env: Env)
    requires !m.halted && report.status == Free && report.speaker == None
    ensures
      Step(m, PttReport(report), env) ==
        if m.key == Down && m.ptt.status in {Applying, Waiting, Accepted, Speaking, Rejected} then m
        else m.(ptt := Ptt(Free, None, report.group, m.ptt.callId, report.rejectReason))
  {
  }

  // A report that the pressed key was queued or refused keeps group, speaker and call, and never
  // interrupts the own speech.
  lemma QueuedReportLaw(m: Machine, report: Ptt, env: Env)
    requires !m.halted && m.key == Down && report.status in {Waiting, Rejected}
    requires m.ptt.speaker != Some(env.user) || m.ptt.status == Speaking
    ensures
      Step(m, PttReport(report), env) ==
        if m.ptt.status == Speaking then m
        else m.(ptt := m.ptt.(status := report.status, rejectReason := report.rejectReason))
  {
  }

  // Under a released key such a report is taken too, and a queued request is cancelled at once.
  lemma ReleasedReportLaw(m: Machine, report: Ptt, env: Env)
    requires !m.halted && m.key == Up && report.status in {Waiting, Rejected} && m.ptt.speaker != Some(env.user)
    ensures
      var taken := m.ptt.(status := report.status, rejectReason := report.rejectReason);
      Step(m, PttReport(report), env) == m.(ptt :=
        if report.status == Waiting && !m.force && !env.callOnTop && m.groups.list != [] && !env.cancelOk
        then taken.(status := Free, speaker := None) else taken)
  {
  }

  // A report that the own user speaks gives a heard floor to a pressed key and frees it for a released one.
  lemma OwnReportLaw(m: Machine, report: Ptt, env: Env)
    requires !m.halted && !m.force && !env.callOnTop
    requires report.status in {Listening, Speaking} && report.speaker == Some(env.user)
    requires m.ptt.status in {Listening, Speaking}
    ensures
      Step(m, PttReport(report), env) == m.(ptt :=
        if m.key == Up then m.ptt.(status := Free, speaker := None)
        else if m.pttCall == Talking && report.status == Listening
        then m.ptt.(status := Speaking, speaker := Some(env.user))
        else m.ptt.(status := Speaking))
  {
  }

  // ---- group calls ----

  // A ringing group call is answered, under its id, from every state that may await one.
  lemma RingingLaw(m: Machine, call: Call, env: Env)
    requires !m.halted && !m.force && call.state == Ringing && !IsError(call.errorCode)
    requires IsGroup(m.groups.list, call.number)
    requires m.ptt.status in {Idle, Free, Applying, Accepted, Waiting, Canceling, Listening, Rejected}
    ensures Step(m, CallReport(call), env) == m.(pttCall := Ringing, ptt := m.ptt.(callId := call.callId))
  {
  }

  // A group call answered with the key down, outside a single call, gives this terminal the floor,
  // whoever was named before.
  lemma TalkingGivesFloor(m: Machine, call: Call, env: Env)
    requires !m.halted && !m.force && !env.callOnTop && m.key == Down
    requires call.state == Talking && !IsError(call.errorCode) && call.callId >= 0
    requires IsGroup(m.groups.list, call.number)
    requires m.ptt.status in {Applying, Accepted, Waiting, Canceling, Canceled, Listening, Idle, Free}
    ensures
      Step(m, CallReport(call), env) ==
        m.(pttCall := Talking,
           ptt := m.ptt.(status := Speaking, speaker := Some(env.user), callId := call.callId,
                         group := if m.ptt.group.None? then CurrentGroup(m) else m.ptt.group))
  {
    var m1 := m.(pttCall := Talking, ptt := m.ptt.(callId := call.callId));
    var named := Connected(m1, call, env);
    assert RefreshedState(m1.(ptt := named), env) == m1.(ptt := named.(status := Speaking));
  }

  // A group call that ends takes the floor away from whoever speaks on it.
  lemma EndedFreesFloor(m: Machine, call: Call, env: Env)
    requires !m.halted && !m.force && call.state == Ended && !IsError(call.errorCode) && call.callId >= 0
    requires IsGroup(m.groups.list, call.number) && m.ptt.status in {Speaking, Listening}
    ensures Step(m, CallReport(call), env).ptt == m.ptt.(status := Free, speaker := None, callId := call.callId)
  {
    var m1 := m.(pttCall := Ended, ptt := m.ptt.(callId := call.callId));
    var freed := m1.(ptt := m1.ptt.(status := Free, speaker := None));
    assert RefreshedState(freed, env) == freed;
    RoutedKeepsFloor(freed, Listening, call, env);
  }

  // Under a released key it gives a granted right back and cancels a queued one; under a pressed key
  // both stay.
  lemma EndedGivesBack(m: Machine, call: Call, env: Env)
    requires !m.halted && !m.force && call.state == Ended && !IsError(call.errorCode) && call.callId >= 0
    requires IsGroup(m.groups.list, call.number) && m.ptt.status in {Accepted, Waiting}
    requires m.ptt.speaker != Some(env.user)
    ensures
      var p := Step(m, CallReport(call), env).ptt;
      var q := m.ptt.(callId := call.callId);
      p == if m.key == Down then q
           else if m.ptt.status == Accepted then q.(status := if Blank(m.ptt.speaker) then Free else Listening)
           else if m.groups.list != [] && !env.cancelOk then q.(status := Canceling, speaker := None)
           else q.(status := Canceling)
  {
    var m1 := m.(pttCall := Ended, ptt := m.ptt.(callId := call.callId));
    RoutedKeepsFloor(m1, m.ptt.status, call, env);
  }

  // A call on no group is shown, and stored, exactly where the screens leave room for it.
  lemma SingleCallIsShown(m: Machine, call: Call, env: Env)
    requires !m.halted && !IsError(call.errorCode) && !IsGroup(m.groups.list, call.number)
    ensures
      var m' := Step(m, CallReport(call), env);
      var shown := if env.pttOnTop then m.ptt.status in {Free, Idle}
                   else env.callOnTop || (m.key == Up && m.ptt.status in {Free, Applying, Idle});
      && m'.ptt.(callId := 0) == m.ptt.(callId := 0) && m'.pttCall == m.pttCall && m'.force == m.force
      && m'.call == (if !shown then m.call
                     else if call.state == Ended && !env.callScreen then call.(state := CallIdle) else call)
  {
  }

  // An error on a group call outside a single call frees the floor for the two codes that end it.
  lemma GroupErrorLaw(m: Machine, call: Call, env: Env)
    requires !m.halted && !m.force && !env.callOnTop && IsError(call.errorCode)
    requires IsGroup(m.groups.list, call.number) && (m.key == Down || env.pttOnTop)
    ensures
      Step(m, CallReport(call), env) ==
        m.(pttCall := call.state,
           ptt := if call.errorCode == 486 || call.errorCode == 504
                  then m.ptt.(status := Free, speaker := None) else m.ptt)
  {
  }

  // Where nobody would see it the error is dropped.
  lemma UnseenErrorLaw(m: Machine, call: Call, env: Env)
    requires !m.halted && !m.force && !env.callOnTop && IsError(call.errorCode)
    requires IsGroup(m.groups.list, call.number) && m.key == Up && !env.pttOnTop
    ensures Step(m, CallReport(call), env) == m
  {
  }

  // An error during a single call, or on a number that is no group, is shown to it. While another call
  // rings or is refused, only the busy signal that ended it is.
  lemma SingleErrorLaw(m: Machine, call: Call, env: Env)
    requires !m.halted && IsError(call.errorCode)
    requires m.force || env.callOnTop || !IsGroup(m.groups.list, call.number)
    ensures
      var m' := Step(m, CallReport(call), env);
      var busy := call.errorCode == 486 && call.state == Ended;
      && ((m.call.state == Ringing || m.call.state == CallRejecting) && !busy ==> m' == m)
      && (!(m.call.state == Ringing || m.call.state == CallRejecting) || busy ==>
            m' == m.(call := if call.state == Ended && !env.callScreen then call.(state := CallIdle) else call))
  {
  }

  // Codes above 300 are errors, except 487, which only says that a request was terminated.
  lemma ErrorCodes(code: int)
    ensures IsError(code) <==> code >= 301 && code != 487
  {
  }

  // ---- single calls made here ----

  // A call to a group number is refused; any other dials, and a native failure also frees the floor.
  lemma MakeCallLaw(m: Machine, number: Option<string>, env: Env)
    requires !m.halted && !m.exiting && m.queue == [MakeCall(number)]
    ensures
      var m' := Step(m, Deliver, env);
      && m'.queue == []
      && (IsGroup(m.groups.list, number) ==> m' == m.(queue := []))
      && (!IsGroup(m.groups.list, number) ==>
            && (env.registered && env.singleOk ==>
                  m' == m.(queue := [], force := true, call := m.call.(state := Dialing, number := number)))
            && (!(env.registered && env.singleOk) ==>
                  !m'.force && m'.call == Call(0, None, CallIdle, 0)
                  && m'.ptt == if env.registered then m.ptt.(status := Free, speaker := None) else m.ptt))
  {
  }

  // Answering or hanging up a single call keeps it while native code does, and clears it otherwise.
  lemma AnswerLaw(m: Machine, command: Command, env: Env)
    requires !m.halted && !m.exiting && m.queue == [command] && command in {AnswerCall, HangupCall}
    ensures
      Step(m, Deliver, env) ==
        if m.call.callId >= 0 && !env.singleOk
        then m.(queue := [], force := false, call := Call(0, None, CallIdle, 0)) else m.(queue := [])
  {
  }

  // Closing PTT from its screen is like an m-Bye; after the exit flag no command does anything.
  lemma CloseLaw(m: Machine, env: Env)
    requires !m.halted && m.queue == [ClosePtt]
    ensures
      Step(m, Deliver, env) ==
        if m.exiting then m.(queue := []) else m.(queue := [], ptt := Ptt(Idle, None, None, -1, 0), key := Up)
  {
  }

  // ---- group lists ----

  // A group list ends INIT: a pressed key now asks for the current group, a released one opens it.
  lemma GroupListLaw(m: Machine, numbers: seq<string>, env: Env)
    requires !m.halted && !m.groups.dynamic && m.ptt.status == Init
    requires numbers != [] && forall n :: n in numbers ==> !BlankText(n)
    ensures
      var p := Step(m, GroupInfo(numbers), env).ptt;
      var current := if IsGroup(numbers, m.currentGroup) then m.currentGroup else Some(numbers[0]);
      var ready := !m.exiting && env.registered && !env.errorShowing;
      p == if m.key == Up then m.ptt.(status := Free, group := current)
           else if !ready then m.ptt.(group := current)
           else if env.applyOk then m.ptt.(status := Applying, group := current)
           else m.ptt.(status := Free, speaker := None, group := current)
  {
    var listed := Listed(m, numbers);
    assert numbers[0] in numbers;
    assert !Blank(CurrentGroup(listed));
  }

  // ---- releasing ----

  // What the key-up handler decides when it wakes: a request is to be cancelled, a granted right or a
  // running speech hung up, and a refusal is acknowledged on the spot.
  lemma WakeLaw(m: Machine, env: Env)
    requires !m.halted && m.asleep == 1
    ensures
      var awake := m.(asleep := 0);
      var s := m.ptt.status;
      Step(m, KeyUpWake, env) ==
        if s == Applying || s == Waiting then awake.(queue := m.queue + [Cancel])
        else if s == Speaking || s == Accepted then awake.(queue := m.queue + [Hangup])
        else if s == Rejected || s == Canceled then
          awake.(queue := m.queue + [UpdateUi],
                 ptt := m.ptt.(rejectReason := -1, status := if Blank(m.ptt.speaker) then Free else Listening))
        else awake
  {
  }

  // What its command does when it arrives.
  lemma CommandLaw(m: Machine, command: Command, env: Env)
    requires !m.halted && !m.exiting && m.queue == [command] && command in {Cancel, Hangup, UpdateUi}
    ensures
      Step(m, Deliver, env) == m.(queue := []).(
        ptt := if command == UpdateUi then m.ptt
               else if command == Hangup || (m.groups.list != [] && !env.cancelOk)
               then m.ptt.(status := Free, speaker := None)
               else m.ptt.(status := if Blank(m.ptt.speaker) then Free else Listening),
        pttCall := if command == Hangup then Ending else m.pttCall)
  {
  }

  // A release, its handler's wake and its command: what was held or asked for is given up, and nothing
  // else changes.
  lemma ReleaseLaw(m: Machine, up: Env, wake: Env, env: Env)
    requires !m.halted && !m.exiting && m.queue == [] && m.asleep == 0
    ensures
      var m' := Run(m, [Action(KeyUp, up), Action(KeyUpWake, wake), Action(Deliver, env)]);
      var s := m.ptt.status;
      var back := if Blank(m.ptt.speaker) then Free else Listening;
      && m'.key == Up && m'.queue == [] && m'.asleep == 0
      && (s in {Speaking, Accepted} ==>
            m'.ptt == m.ptt.(status := Free, speaker := None) && m'.pttCall == Ending)
      && (s in {Applying, Waiting} ==>
            m'.ptt == if m.groups.list != [] && !env.cancelOk then m.ptt.(status := Free, speaker := None)
                      else m.ptt.(status := back))
      && (s in {Rejected, Canceled} ==> m'.ptt == m.ptt.(status := back, rejectReason := -1))
      && (s !in {Speaking, Accepted, Applying, Waiting, Rejected, Canceled} ==> m'.ptt == m.ptt)
  {
    var actions := [Action(KeyUp, up), Action(KeyUpWake, wake), Action(Deliver, env)];
    var m1 := m.(key := Up, asleep := 1);
    var m2 := Step(m1, KeyUpWake, wake);
    WakeLaw(m1, wake);
    if m2.queue != [] {
      assert m2.queue == [m2.queue[0]];
      CommandLaw(m2, m2.queue[0], env);
    }
    RunUnrolls(m, actions, [m, m1, m2, Step(m2, Deliver, env)]);
  }

  // ---- a talk burst ----

  // Pressed on an open floor, granted, called back and released: the terminal speaks under its own
  // name on its group while the key is down, and gives the floor back when it is not.
  lemma TalkBurst(m: Machine, call: Call, env: Env)
    requires !m.halted && !m.exiting && m.call.state in {CallIdle, Ended} && !m.force && !env.callOnTop
    requires m.key == Up && m.queue == [] && m.asleep == 0
    requires m.ptt.status in {Idle, Free} && m.ptt.speaker == None
    requires RequestGroup(m).Some? && m.groups.list != []
    requires env.registered && !env.errorShowing && env.applyOk
    requires call.state == Talking && !IsError(call.errorCode) && call.callId >= 0
    requires IsGroup(m.groups.list, call.number)
    ensures
      var speaking := Run(m, [Action(KeyDown, env), Action(Deliver, env),
                              Action(RightResponse(Accepted), env), Action(CallReport(call), env)]);
      var done := Run(speaking, [Action(KeyUp, env), Action(KeyUpWake, env), Action(Deliver, env)]);
      && speaking.ptt == Ptt(Speaking, Some(env.user), RequestGroup(m), call.callId, m.ptt.rejectReason)
      && speaking.key == Down
      && done.ptt == Ptt(Free, None, RequestGroup(m), call.callId, m.ptt.rejectReason)
      && done.key == Up && done.queue == [] && done.asleep == 0
  {
    var asked := m.(key := Down, ptt := m.ptt.(status := Applying, group := RequestGroup(m)));
    var granted := asked.(ptt := asked.ptt.(status := Accepted));
    var speaking := asked.(pttCall := Talking,
                           ptt := asked.ptt.(status := Speaking, speaker := Some(env.user), callId := call.callId));
    AskedExactly(m, asked, env);
    ResponseLaw(asked, Accepted, env);
    TalkingGivesFloor(granted, call, env);
    var press := [Action(KeyDown, env), Action(Deliver, env)];
    var grant := [Action(RightResponse(Accepted), env), Action(CallReport(call), env)];
    RunSplits(m, press, grant);
    assert press + grant == [Action(KeyDown, env), Action(Deliver, env),
                             Action(RightResponse(Accepted), env), Action(CallReport(call), env)];
    RunUnrolls(asked, grant, [asked, granted, speaking]);
    ReleaseLaw(speaking, env, env, env);
  }

  lemma AskedExactly(m: Machine, asked: Machine, env: Env)
    requires !m.halted && !m.exiting && m.call.state in {CallIdle, Ended} && m.key == Up && m.queue == []
    requires m.ptt.status in {Idle, Free} && RequestGroup(m).Some? && m.groups.list != []
    requires env.registered && !env.errorShowing && env.applyOk
    requires asked == m.(key := Down, ptt := m.ptt.(status := Applying, group := RequestGroup(m)))
    ensures Run(m, [Action(KeyDown, env), Action(Deliver, env)]) == asked
  {
    var m1 := m.(key := Down, queue := [Apply]);
    PressAsks(m, env);
    assert m1.queue[1..] == [];
    assert Step(m1, Deliver, env) == asked;
    RunUnrolls(m, [Action(KeyDown, env), Action(Deliver, env)], [m, m1, asked]);
  }
}
