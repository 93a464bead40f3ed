/**
  The PTT floor as a step function: each handler of the terminal takes one `Machine` to the
  next. A handler is one atomic step, except key-up, which sleeps between two steps.
 */
module FloorSpec {
  import opened Basics
  import opened PttState

  // ---- PTTManager, SipProxy, PTTUtil ----

  function FreeFloor(p: Ptt): Ptt {
    p.(status := Free, speaker := None)
  }

  function Cleared(m: Machine): Machine {
    m.(ptt := NEW_PTT, key := Up)
  }

  function CallCleared(m: Machine): Machine {
    m.(call := NEW_CALL, force := false)
  }

  // SipProxy.checkResult: any native failure frees the floor.
  function CheckResult(m: Machine, ok: bool): Machine {
    if ok then m else m.(ptt := FreeFloor(m.ptt))
  }

  predicate IsGroup(list: seq<string>, number: Option<string>) {
    !Blank(number) && number.value in list
  }

  // PTTUtil.getCurrentGroupInfo, as far as the number goes.
  function CurrentGroup(m: Machine): Option<string> {
    if IsGroup(m.groups.list, m.currentGroup) then m.currentGroup else None
  }

  function ApplyRight(m: Machine, env: Env): Machine {
    var group := if Blank(m.ptt.group) then CurrentGroup(m) else m.ptt.group;
    if group.None? then m
    else
      var m' := m.(ptt := m.ptt.(group := group));
      if env.registered && m.groups.list != [] then CheckResult(m', env.applyOk) else m'
  }

  function CancelRight(m: Machine, env: Env): Machine {
    if m.groups.list == [] then m else CheckResult(m, env.cancelOk)
  }

  predicate NoCall(s: CallStatus) {
    s == CallIdle || s == Ended
  }

  // ---- PTTService.JNIUpdatePTTState ----

  // PTTManager.setCurrentPttState copies every field but the call id.
  function Copied(p: Ptt, src: Ptt): Ptt {
    src.(callId := p.callId)
  }

  // What the reported object holds once the handler has "reset group num" in it.
  function Completed(p: Ptt, src: Ptt): Ptt {
    if src.status in {Waiting, Rejected} then src.(group := p.group, speaker := p.speaker) else src
  }

  // A pending or granted right outlives a FREE report while the key is down.
  predicate HoldsFloor(s: Status) {
    s in {Applying, Waiting, Accepted, Speaking, Rejected}
  }

  function Absorbed(m: Machine, src: Ptt): Machine {
    if (src.status == Free && !(HoldsFloor(m.ptt.status) && m.key == Down))
       || src.status in {Waiting, Rejected}
    then m.(ptt := Copied(m.ptt, Completed(m.ptt, src)))
    else m
  }

  function Promoted(m: Machine, reported: Status, mine: bool, env: Env): Machine {
    if m.pttCall == Talking && reported != Speaking && m.key == Down && mine
    then m.(ptt := m.ptt.(status := Speaking, speaker := Some(env.user)))
    else m
  }

  // A floor that names this terminal's own user is taken or given up, by the key.
  function Claimed(m: Machine, mine: bool): Machine {
    if m.ptt.status in {Listening, Speaking} && mine then
      if m.key == Up then m.(ptt := FreeFloor(m.ptt)) else m.(ptt := m.ptt.(status := Speaking))
    else m
  }

  function Withdrawn(m: Machine, env: Env): Machine {
    if m.key == Down then m
    else match m.ptt.status
      case Waiting => CancelRight(m, env)
      case Applying => CancelRight(m, env)
      case Accepted => if NoCall(m.pttCall) then m.(ptt := FreeFloor(m.ptt)) else m
      case _ => m
  }

  predicate SingleCall(m: Machine, env: Env) {
    m.force || env.callOnTop
  }

  // The half of JNIUpdatePTTState that a single call switches off.
  function Settled(m: Machine, reported: Status, mine: bool, env: Env): Machine {
    if SingleCall(m, env) then m
    else Withdrawn(Claimed(Promoted(m, reported, mine, env), mine), env)
  }

  // A status object that native code brings.
  function ReportedState(m: Machine, src: Ptt, env: Env): Machine {
    if src.status in {Waiting, Rejected} && m.ptt.status == Speaking && m.key == Down then m
    else
      Settled(Absorbed(m, src), src.status, Completed(m.ptt, src).speaker == Some(env.user), env)
  }

  // The same handler called with the current object itself: nothing is copied.
  function RefreshedState(m: Machine, env: Env): Machine {
    Settled(m, m.ptt.status, m.ptt.speaker == Some(env.user), env)
  }

  // ---- PTTService.JNIUpdateCallState ----

  function SingleCallState(m: Machine, call: Call, env: Env): Machine {
    m.(call := if call.state == Ended && !env.callScreen then call.(state := CallIdle) else call)
  }

  // ---- PTTService.handleCommand ----

  function Applied(m: Machine, env: Env): Machine {
    if env.errorShowing || !env.registered then m
    else if m.groups.list == [] then m.(ptt := m.ptt.(status := Init))
    else ApplyRight(m.(ptt := m.ptt.(status := Applying)), env)
  }

  function Fallback(speaker: Option<string>): Status {
    if Blank(speaker) then Free else Listening
  }

  function Made(m: Machine, number: Option<string>, env: Env): Machine {
    if IsGroup(m.groups.list, number) then m
    else
      var m' := m.(call := m.call.(state := Dialing, number := number));
      if !env.registered then CallCleared(m')
      else if env.singleOk then m'.(force := true)
      else CallCleared(CheckResult(m', false))
  }

  function Handled(m: Machine, command: Command, env: Env): Machine {
    if m.exiting then m
    else match command
      case Apply => Applied(m, env)
      case Cancel => CancelRight(m.(ptt := m.ptt.(status := Fallback(m.ptt.speaker))), env)
      case Hangup => m.(ptt := FreeFloor(m.ptt), pttCall := Ending)
      case UpdateUi => m
      case ClosePtt => Cleared(m)
      case MakeCall(number) => Made(m, number, env)
      case AnswerCall => if m.call.callId < 0 || env.singleOk then m else CallCleared(m)
      case HangupCall => if m.call.callId < 0 || env.singleOk then m else CallCleared(m)
  }

  function Delivered(m: Machine, env: Env): Machine {
    if m.queue == [] then m else Handled(m.(queue := m.queue[1..]), m.queue[0], env)
  }

  // ---- PTTKeyReceiver ----

  function Posted(m: Machine, command: Command): Machine {
    m.(queue := m.queue + [command])
  }

  function Pressed(m: Machine, env: Env): Machine {
    if !NoCall(m.call.state) then m
    else if m.key == Up then
      var m' := m.(key := Down);
      if m.ptt.status in {Listening, Free, Rejected, Canceled, Idle, Init} then Posted(m', Apply) else m'
    else if m.ptt.status == Canceling
            || (m.ptt.status in {Init, Free, Rejected, Canceled, Listening}
                && m.ptt.speaker != Some(env.user))
    then Posted(m, Apply)
    else m
  }

  function Released(m: Machine): Machine {
    m.(key := Up, asleep := m.asleep + 1)
  }

  function Woken(m: Machine): Machine {
    if m.asleep == 0 then m
    else
      var m' := m.(asleep := m.asleep - 1);
      match m.ptt.status
      case Applying => Posted(m', Cancel)
      case Waiting => Posted(m', Cancel)
      case Speaking => Posted(m', Hangup)
      case Accepted => Posted(m', Hangup)
      case Rejected => Posted(GivenUp(m'), UpdateUi)
      case Canceled => Posted(GivenUp(m'), UpdateUi)
      case _ => m'
  }

  function GivenUp(m: Machine): Machine {
    m.(ptt := m.ptt.(rejectReason := -1, status := Fallback(m.ptt.speaker)))
  }

  // ---- PTTService.mInviteIndicate, mByeIndicate ----

  function Invited(m: Machine, group: Option<string>, speaker: Option<string>, env: Env): Machine {
    if group.None? then Cleared(m)
    else if NoCall(m.call.state) then InvitedOutsideCall(m, group, speaker, env)
    else if SingleCall(m, env) then
      if IsGroup(m.groups.list, group) && !Blank(speaker)
      then m.(ptt := m.ptt.(status := Listening, speaker := speaker, group := group))
      else m
    else InvitedOutsideCall(CallCleared(m), group, speaker, env)
  }

  function InvitedOutsideCall(m: Machine, group: Option<string>, speaker: Option<string>, env: Env): Machine {
    if Blank(speaker) then InvitedSilently(m, group, speaker, env) else InvitedBy(m, group, speaker, env)
  }

  function InvitedSilently(m: Machine, group: Option<string>, speaker: Option<string>, env: Env): Machine {
    match m.ptt.status
    case Accepted => m
    case Applying => m
    case Waiting => m.(ptt := m.ptt.(status := Applying, speaker := None))
    case _ => Grouped(RefreshedState(m.(ptt := FreeFloor(m.ptt)), env), group, speaker, env)
  }

  function InvitedBy(m: Machine, group: Option<string>, speaker: Option<string>, env: Env): Machine {
    var p := m.ptt.(speaker := speaker);
    if speaker == Some(env.user) then
      Grouped(RefreshedState(m.(ptt := p.(status := Speaking)), env), group, speaker, env)
    else if m.ptt.status in {Waiting, Applying, Rejected} && m.key == Down then
      RefreshedState(m.(ptt := p), env)
    else
      Grouped(RefreshedState(m.(ptt := p.(status := Listening)), env), group, speaker, env)
  }

  function Grouped(m: Machine, group: Option<string>, speaker: Option<string>, env: Env): Machine {
    var p := m.ptt.(group := group);
    m.(ptt :=
      if p.status != Idle then p
      else p.(speaker := speaker, status := if speaker == Some(env.user) then Speaking else Listening))
  }

  // ---- JniCallback.receivePttRightResponse ----

  function Responded(m: Machine, response: Status, env: Env): Machine {
    if m.ptt.status == Speaking then m
    else if response == Forbidden then
      if m.key == Down then Posted(Cleared(m).(key := Down), Apply) else Cleared(m)
    else
      var status :=
        if response == Busy then Accepted
        else if response in {Canceled, Rejected} && m.key == Up then Fallback(m.ptt.speaker)
        else response;
      RefreshedState(m.(ptt := m.ptt.(status := status)), env)
  }

  // ---- JniCallback.showCallState ----

  predicate IsError(code: int) {
    code > 300 && code != 487
  }

  function CallShown(m: Machine, call: Call, env: Env): Machine {
    if IsError(call.errorCode) then CallFailed(m, call, env)
    else if !IsGroup(m.groups.list, call.number) then Routed(m, m.ptt.status, call, env)
    else if m.force then SingleCallState(m, call, env)
    else GroupCallShown(m, call, env)
  }

  function GroupCallShown(m: Machine, call: Call, env: Env): Machine {
    var m' := m.(pttCall := call.state,
                 ptt := if call.callId >= 0 then m.ptt.(callId := call.callId) else m.ptt);
    match call.state
    case Ringing => GroupRinging(m', call, env)
    case Talking => Routed(GroupTalking(m', call, env), m.ptt.status, call, env)
    case Ended => GroupEnded(m', call, env)
    case _ => Routed(m', m.ptt.status, call, env)
  }

  function CallFailed(m: Machine, call: Call, env: Env): Machine {
    if SingleCall(m, env) || !IsGroup(m.groups.list, call.number) then
      if m.call.state in {Ringing, CallRejecting} && !(call.errorCode == 486 && call.state == Ended)
      then m
      else SingleCallState(m, call, env)
    else if m.key == Down || env.pttOnTop then
      m.(pttCall := call.state,
         ptt := if call.errorCode in {486, 504} then FreeFloor(m.ptt) else m.ptt)
    else m
  }

  function GroupRinging(m: Machine, call: Call, env: Env): Machine {
    if m.ptt.status in {Idle, Free, Applying, Accepted, Waiting, Canceling, Listening, Rejected}
    then m.(ptt := m.ptt.(callId := call.callId))
    else Routed(m, m.ptt.status, call, env)
  }

  // The states in which an answered group call may carry this terminal's voice.
  predicate Answerable(p: Ptt, call: Call) {
    p.status in {Accepted, Canceling, Canceled, Waiting, Applying, Listening, Idle}
    || (p.status == Free && p.callId == call.callId)
  }

  function GroupTalking(m: Machine, call: Call, env: Env): Machine {
    if Answerable(m.ptt, call) && (m.key == Down || m.ptt.status == Listening)
    then RefreshedState(m.(ptt := Connected(m, call, env)), env)
    else m
  }

  function Connected(m: Machine, call: Call, env: Env): Ptt {
    m.ptt.(
      group := if m.ptt.group.None? then CurrentGroup(m) else m.ptt.group,
      status := if m.ptt.speaker == Some(env.user) || Empty(m.ptt.speaker) then Speaking else m.ptt.status,
      speaker := if m.key == Down then Some(env.user) else m.ptt.speaker,
      callId := call.callId)
  }

  function GroupEnded(m: Machine, call: Call, env: Env): Machine {
    match m.ptt.status
    case Speaking => RefreshedState(m.(ptt := FreeFloor(m.ptt)), env)
    case Listening => Routed(RefreshedState(m.(ptt := FreeFloor(m.ptt)), env), Listening, call, env)
    case Waiting =>
      if m.key == Down then Routed(m, Waiting, call, env)
      else
        var m' := CancelRight(m, env);
        RefreshedState(m'.(ptt := m'.ptt.(status := Canceling)), env)
    case Free => EndedWhileOpen(m, call, env)
    case Accepted => EndedWhileOpen(m, call, env)
    case _ => Routed(m, m.ptt.status, call, env)
  }

  function EndedWhileOpen(m: Machine, call: Call, env: Env): Machine {
    if m.key == Down then Routed(m, m.ptt.status, call, env)
    else RefreshedState(m.(ptt := m.ptt.(status := Fallback(m.ptt.speaker))), env)
  }

  // The tail of showCallState, which still looks at the status from before the handler.
  function Routed(m: Machine, before: Status, call: Call, env: Env): Machine {
    if env.pttOnTop then
      if before in {Free, Idle} && !IsGroup(m.groups.list, call.number)
      then SingleCallState(m, call, env) else m
    else if env.callOnTop then SingleCallState(m, call, env)
    else if before in {Free, Applying, Idle} then
      if m.key == Up then SingleCallState(m, call, env)
      else m.(ptt := m.ptt.(callId := call.callId))
    else m
  }

  // ---- PTTService.JNIAddGroupInfo ----

  function Listed(m: Machine, numbers: seq<string>): Machine {
    if numbers == [] then
      m.(groups := m.groups.(list := [], members := map[]), currentGroup := Some(""))
    else
      var m' := m.(groups := m.groups.(list := numbers));
      m'.(currentGroup := if CurrentGroup(m').None? then Some(numbers[0]) else m.currentGroup)
  }

  function Started(m: Machine, env: Env): Machine {
    if m.ptt.status != Init then m
    else if CurrentGroup(m).None? then Cleared(m)
    else
      var m' := m.(ptt := m.ptt.(group := CurrentGroup(m)));
      if m.key == Down then Handled(m', Apply, env) else m'.(ptt := m'.ptt.(status := Free))
  }

  // Only a regrouping takes the floor away; it dereferences the PTT group to do so.
  predicate Dereferences(m: Machine, env: Env) {
    (m.call.state == CallIdle || !env.callOnTop) && m.ptt.status != Idle
  }

  function Regrouped(m: Machine, env: Env): Machine {
    if !m.groups.dynamic then m
    else if Dereferences(m, env) && m.groups.list != [] && m.ptt.group.None? then m.(halted := true)
    else
      var m' := if Dereferences(m, env) && (m.groups.list == [] || m.ptt.group.value !in m.groups.list)
                then Cleared(m) else m;
      m'.(groups := m'.groups.(members := map[], dynamic := false))
  }

  function GroupsAdded(m: Machine, numbers: seq<string>, env: Env): Machine {
    Regrouped(Started(Listed(m, numbers), env), env)
  }

  // ---- PTTService.JNIUpdateRegisterState ----

  function Unregistered(m: Machine): Machine {
    var m1 := if m.ptt.status == Idle then m else Cleared(m);
    var m2 := if m1.call.state == CallIdle then m1 else CallCleared(m1);
    m2.(groups := Groups([], map[], false))
  }

  // ---- one handler ----

  function Step(m: Machine, e: Event, env: Env): Machine {
    if m.halted then m
    else match e
      case KeyDown => Pressed(m, env)
      case KeyUp => Released(m)
      case KeyUpWake => Woken(m)
      case Deliver => Delivered(m, env)
      case Post(command) => Posted(m, command)
      case MInvite(group, speaker) => Invited(m, group, speaker, env)
      case MBye => Cleared(m)
      case RightResponse(response) => Responded(m, response, env)
      case CallReport(call) => CallShown(m, call, env)
      case PttReport(report) => ReportedState(m, report, env)
      case GroupInfo(numbers) => GroupsAdded(m, numbers, env)
      case RegroupNotice => m.(groups := m.groups.(dynamic := true))
      case RegistrationLost => Unregistered(m)
      case SingleCallCleared => CallCleared(m)
      case ExitRequested => m.(exiting := true)
  }

  datatype Action = Action(event: Event, env: Env)

  function Run(m: Machine, actions: seq<Action>): Machine
    decreases |actions|
  {
    if actions == [] then m
    else Run(Step(m, actions[0].event, actions[0].env), actions[1..])
  }

  const START := Machine(NEW_PTT, Up, CallIdle, NEW_CALL, false,
                         Groups([], map[], false), None, [], 0, false, false)
}
