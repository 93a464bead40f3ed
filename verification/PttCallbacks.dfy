/**
  The two objects that drive the service: the key receiver and the native callbacks. `Dispatch`
  runs one handler of any kind and takes the service where `FloorSpec.Step` says.
 */
module PttCallbacks {
  import opened Basics
  import opened PttState
  import opened PttService
  import FloorRequests
  import FloorSpec

  // ---- PTTKeyReceiver ----

  method HandlePttDown(svc: Service, env: Env)
    modifies svc, svc.manager
    ensures svc.View() == FloorSpec.Pressed(old(svc.View()), env)
    ensures svc.manager.pttGroupStatus == old(svc.manager.pttGroupStatus)
    ensures FloorRequests.Ordinary(old(svc.View()).ptt) ==>
              svc.queue == old(svc.queue) + if FloorRequests.Asks(old(svc.View()), env.user) then [Apply] else []
  {
    if FloorRequests.Ordinary(svc.View().ptt) {
      FloorRequests.PressedLaw(svc.View(), env);
    }
    var single := svc.calls.currentCallState.state;
    if single != CallIdle && single != Ended {
      return;
    }
    var current := svc.manager.pttGroupStatus;
    var iStatus := current.status;
    if svc.manager.ePttKeyStatus == Down {
      match iStatus {
        case Init | Free | Rejected | Canceled | Listening =>
          if current.speakerNum != Some(env.user) {
            svc.SendPttCommand(Apply);
          }
        case Canceling =>
          svc.SendPttCommand(Apply);
        case _ =>
      }
      return;
    }
    svc.manager.ePttKeyStatus := Down;
    match iStatus {
      case Listening | Free | Rejected | Canceled | Idle | Init =>
        svc.SendPttCommand(Apply);
      case _ =>
    }
  }

  // handlePttUp as far as its sleep
  method HandlePttUp(svc: Service)
    modifies svc, svc.manager
    ensures svc.View() == FloorSpec.Released(old(svc.View()))
    ensures svc.manager.pttGroupStatus == old(svc.manager.pttGroupStatus)
  {
    svc.manager.ePttKeyStatus := Up;
    svc.asleep := svc.asleep + 1;
  }

  // handlePttUp after its sleep
  method WakePttUp(svc: Service)
    modifies svc, svc.manager.pttGroupStatus
    ensures svc.View() == FloorSpec.Woken(old(svc.View()))
  {
    if svc.asleep == 0 {
      return;
    }
    svc.asleep := svc.asleep - 1;
    var current := svc.manager.pttGroupStatus;
    match current.status {
      case Applying | Waiting =>
        svc.SendPttCommand(Cancel);
      case Speaking =>
        svc.SendPttCommand(Hangup);
      case Rejected | Canceled =>
        current.rejectReason := -1;
        if Blank(current.speakerNum) {
          current.status := Free;
        } else {
          current.status := Listening;
        }
        svc.SendPttCommand(UpdateUi);
      case Accepted =>
        svc.SendPttCommand(Hangup);
      case _ =>
    }
  }

  // ---- JniCallback ----

  method ReceivePttRightResponse(svc: Service, response: Status, env: Env)
    modifies svc, svc.manager, svc.manager.pttGroupStatus
    ensures svc.View() == FloorSpec.Responded(old(svc.View()), response, env)
    ensures svc.manager.pttGroupStatus == old(svc.manager.pttGroupStatus) || fresh(svc.manager.pttGroupStatus)
  {
    var responseStatus := response;
    var pttGroupStatus := svc.manager.pttGroupStatus;
    var speaker := pttGroupStatus.speakerNum;
    if pttGroupStatus.status == Speaking {
      return;
    }
    match responseStatus {
      case Busy =>
        responseStatus := Accepted;
      case Canceled | Rejected =>
        if svc.manager.ePttKeyStatus == Up {
          responseStatus := if Blank(speaker) then Free else Listening;
        }
      case Forbidden =>
        if svc.manager.ePttKeyStatus == Down {
          svc.manager.Clear();
          svc.manager.ePttKeyStatus := Down;
          svc.SendPttCommand(Apply);
        } else {
          svc.manager.Clear();
        }
        return;
      case _ =>
    }
    pttGroupStatus.status := responseStatus;
    svc.JniUpdatePttState(pttGroupStatus, env);
  }

  method ShowCallState(svc: Service, call: Call, env: Env)
    modifies svc.manager, svc.manager.pttGroupStatus, svc.calls
    ensures svc.View() == FloorSpec.CallShown(old(svc.View()), call, env)
    ensures svc.manager.pttGroupStatus == old(svc.manager.pttGroupStatus)
  {
    if call.errorCode > 300 && call.errorCode != 487 {
      ShowCallError(svc, call, env);
      return;
    }
    var isGroup := svc.CheckIsGroupNum(call.number);
    if isGroup {
      if svc.calls.bForceInSC {
        svc.JniUpdateCallState(call, env);
        return;
      }
      ShowGroupCall(svc, call, env);
    } else {
      RouteCall(svc, svc.manager.pttGroupStatus.status, call, env);
    }
  }

  // The switch on a group call's state; the states that do not return go on to RouteCall.
  method ShowGroupCall(svc: Service, call: Call, env: Env)
    modifies svc.manager, svc.manager.pttGroupStatus, svc.calls
    ensures svc.View() == FloorSpec.GroupCallShown(old(svc.View()), call, env)
    ensures svc.manager.pttGroupStatus == old(svc.manager.pttGroupStatus)
  {
    var current := svc.manager.pttGroupStatus;
    var iPttStatus := current.status;
    if call.callId >= 0 {
      current.callId := call.callId;
    }
    svc.manager.callState := call.state;
    match call.state {
      case Ringing =>
        ShowRinging(svc, call, env);
      case Talking =>
        ShowTalking(svc, call, env);
        RouteCall(svc, iPttStatus, call, env);
      case Ended =>
        ShowEnded(svc, call, env);
      case _ =>
        RouteCall(svc, iPttStatus, call, env);
    }
  }

  method ShowCallError(svc: Service, call: Call, env: Env)
    modifies svc.manager, svc.manager.pttGroupStatus, svc.calls
    ensures svc.View() == FloorSpec.CallFailed(old(svc.View()), call, env)
    ensures svc.manager.pttGroupStatus == old(svc.manager.pttGroupStatus)
  {
    var isGroup := svc.CheckIsGroupNum(call.number);
    var single := svc.calls.currentCallState.state;
    if env.callOnTop || svc.calls.bForceInSC || !isGroup {
      if single == Ringing || single == CallRejecting {
        if call.errorCode == 486 && call.state == Ended {
          svc.JniUpdateCallState(call, env);
        }
      } else {
        svc.JniUpdateCallState(call, env);
      }
    } else if svc.manager.ePttKeyStatus == Down || env.pttOnTop {
      if call.errorCode == 486 || call.errorCode == 504 {
        svc.manager.pttGroupStatus.status := Free;
        svc.manager.pttGroupStatus.speakerNum := None;
      }
      svc.manager.callState := call.state;
    }
  }

  method ShowRinging(svc: Service, call: Call, env: Env)
    modifies svc.manager.pttGroupStatus, svc.calls
    ensures svc.View() == FloorSpec.GroupRinging(old(svc.View()), call, env)
  {
    match svc.manager.pttGroupStatus.status {
      case Idle | Free | Applying | Accepted | Waiting | Canceling | Listening | Rejected =>
        svc.manager.pttGroupStatus.callId := call.callId;
        return;
      case _ =>
    }
    RouteCall(svc, svc.manager.pttGroupStatus.status, call, env);
  }

  method ShowTalking(svc: Service, call: Call, env: Env)
    modifies svc.manager.pttGroupStatus
    ensures svc.View() == FloorSpec.GroupTalking(old(svc.View()), call, env)
  {
    var current := svc.manager.pttGroupStatus;
    match current.status {
      case Free =>
        if current.callId != call.callId {
          return;
        }
      case Accepted | Canceling | Canceled | Waiting | Applying | Listening | Idle =>
      case _ =>
        return;
    }
    if (svc.manager.ePttKeyStatus == Up && current.status == Listening) || svc.manager.ePttKeyStatus == Down {
      ConnectCall(svc, call, env);
      svc.RefreshPttState(env);
    }
  }

  method ConnectCall(svc: Service, call: Call, env: Env)
    modifies svc.manager.pttGroupStatus
    ensures svc.manager.pttGroupStatus.Value() == FloorSpec.Connected(old(svc.View()), call, env)
  {
    FillGroup(svc);
    var current := svc.manager.pttGroupStatus;
    if current.speakerNum == Some(env.user) || Empty(current.speakerNum) {
      current.status := Speaking;
    }
    if svc.manager.ePttKeyStatus == Down {
      current.speakerNum := Some(env.user);
    }
    current.callId := call.callId;
  }

  method FillGroup(svc: Service)
    modifies svc.manager.pttGroupStatus`groupNum
    ensures
      var m := old(svc.View());
      svc.manager.pttGroupStatus.groupNum
        == if m.ptt.group.None? then FloorSpec.CurrentGroup(m) else m.ptt.group
  {
    if svc.manager.pttGroupStatus.groupNum.None? {
      var groupInfo := svc.GetCurrentGroupInfo();
      if groupInfo.Some? {
        svc.manager.pttGroupStatus.groupNum := groupInfo;
      }
    }
  }

  method ShowEnded(svc: Service, call: Call, env: Env)
    modifies svc.manager.pttGroupStatus, svc.calls
    ensures svc.View() == FloorSpec.GroupEnded(old(svc.View()), call, env)
  {
    var iPttStatus := svc.manager.pttGroupStatus.status;
    match iPttStatus {
      case Free | Accepted | Waiting =>
        if svc.manager.ePttKeyStatus == Up {
          ReopenFloor(svc, env);
          return;
        }
      case Speaking =>
        svc.DropSpeaker(env);
        return;
      case Listening =>
        svc.DropSpeaker(env);
      case _ =>
    }
    RouteCall(svc, iPttStatus, call, env);
  }

  // The key-up branch of a call that ends while the right is open or queued.
  method ReopenFloor(svc: Service, env: Env)
    requires svc.manager.pttGroupStatus.status in {Free, Accepted, Waiting}
    modifies svc.manager.pttGroupStatus
    ensures
      var m := old(svc.View());
      var c := if m.ptt.status == Waiting then FloorSpec.CancelRight(m, env) else m;
      svc.View() == FloorSpec.RefreshedState(
        c.(ptt := c.ptt.(status := if m.ptt.status == Waiting then Canceling
                                   else FloorSpec.Fallback(m.ptt.speaker))), env)
  {
    var current := svc.manager.pttGroupStatus;
    var state := if Blank(current.speakerNum) then Free else Listening;
    if current.status == Waiting {
      state := Canceling;
      svc.CancelPttRight(env);
    }
    current.status := state;
    svc.RefreshPttState(env);
  }

  method RouteCall(svc: Service, iPttStatus: Status, call: Call, env: Env)
    modifies svc.manager.pttGroupStatus, svc.calls
    ensures svc.View() == FloorSpec.Routed(old(svc.View()), iPttStatus, call, env)
  {
    if !env.pttOnTop {
      if env.callOnTop {
        svc.JniUpdateCallState(call, env);
      } else {
        match iPttStatus {
          case Free | Applying | Idle =>
            if svc.manager.ePttKeyStatus == Up {
              svc.JniUpdateCallState(call, env);
            } else {
              svc.manager.pttGroupStatus.callId := call.callId;
            }
          case _ =>
        }
      }
    } else {
      match iPttStatus {
        case Free | Idle =>
          var isGroup := svc.CheckIsGroupNum(call.number);
          if !isGroup {
            svc.JniUpdateCallState(call, env);
          }
        case _ =>
      }
    }
  }

  // updatePttState: native code hands over an object of its own.
  method UpdatePttState(svc: Service, report: Ptt, env: Env)
    modifies svc.manager.pttGroupStatus
    ensures svc.View() == FloorSpec.ReportedState(old(svc.View()), report, env)
  {
    var pttGroupStatus := new PttGroupStatus.Report(report);
    svc.JniUpdatePttState(pttGroupStatus, env);
  }

  // ---- one handler of any kind ----

  method Dispatch(svc: Service, e: Event, env: Env)
    modifies svc, svc.manager, svc.manager.pttGroupStatus, svc.calls, svc.book
    ensures svc.View() == FloorSpec.Step(old(svc.View()), e, env)
    ensures svc.manager.pttGroupStatus == old(svc.manager.pttGroupStatus) || fresh(svc.manager.pttGroupStatus)
  {
    if svc.halted {
      return;
    }
    match e {
      case KeyDown => HandlePttDown(svc, env);
      case KeyUp => HandlePttUp(svc);
      case KeyUpWake => WakePttUp(svc);
      case Deliver => svc.DeliverCommand(env);
      case Post(command) => svc.SendPttCommand(command);
      case MInvite(group, speaker) => svc.MInviteIndicate(group, speaker, env);
      case MBye => svc.MByeIndicate();
      case RightResponse(response) => ReceivePttRightResponse(svc, response, env);
      case CallReport(call) => ShowCallState(svc, call, env);
      case PttReport(report) => UpdatePttState(svc, report, env);
      case GroupInfo(numbers) => svc.JniAddGroupInfo(numbers, env);
      case RegroupNotice => svc.book.dynamic := true;
      case RegistrationLost => svc.JniUpdateRegisterState();
      case SingleCallCleared => svc.calls.Clear();
      case ExitRequested => svc.exitFlag := true;
    }
  }
}
