/**
  The service that owns the floor, as the source writes it: one shared PttGroupStatus object,
  changed field by field. Every handler is proved to take the snapshot `View()` where
  `FloorSpec` says. Sounds, screens, broadcasts to the UI and hangup requests change no field
  and are left out of the bodies.
 */
module PttService {
  import opened Basics
  import opened GroupRoster
  import opened PttState
  import FloorSpec

  class PttGroupStatus {
    var status: Status
    var speakerNum: Option<string>
    var groupNum: Option<string>
    var callId: int
    var rejectReason: int

    constructor ()
      ensures Value() == NEW_PTT
    {
      status, speakerNum, groupNum, callId, rejectReason := Idle, None, None, -1, 0;
    }

    constructor Report(value: Ptt)
      ensures Value() == value
    {
      status, speakerNum, groupNum := value.status, value.speaker, value.group;
      callId, rejectReason := value.callId, value.rejectReason;
    }

    ghost function Value(): Ptt
      reads this
    {
      Ptt(status, speakerNum, groupNum, callId, rejectReason)
    }
  }

  class PttManager {
    var pttGroupStatus: PttGroupStatus
    var ePttKeyStatus: Key
    var callState: CallStatus

    constructor ()
      ensures fresh(pttGroupStatus)
      ensures pttGroupStatus.Value() == NEW_PTT && ePttKeyStatus == Up && callState == CallIdle
    {
      pttGroupStatus := new PttGroupStatus();
      ePttKeyStatus, callState := Up, CallIdle;
    }

    method SetCurrentPttState(src: PttGroupStatus)
      modifies pttGroupStatus
      ensures pttGroupStatus.Value() == FloorSpec.Copied(old(pttGroupStatus.Value()), old(src.Value()))
    {
      pttGroupStatus.groupNum := src.groupNum;
      pttGroupStatus.speakerNum := src.speakerNum;
      pttGroupStatus.status := src.status;
      pttGroupStatus.rejectReason := src.rejectReason;
    }

    method Clear()
      modifies this
      ensures fresh(pttGroupStatus) && pttGroupStatus.Value() == NEW_PTT && ePttKeyStatus == Up
      ensures callState == old(callState)
    {
      pttGroupStatus := new PttGroupStatus();
      ePttKeyStatus := Up;
    }
  }

  class CallStateManager {
    var currentCallState: Call
    var bForceInSC: bool

    constructor ()
      ensures currentCallState == NEW_CALL && !bForceInSC
    {
      currentCallState, bForceInSC := NEW_CALL, false;
    }

    method Clear()
      modifies this
      ensures currentCallState == NEW_CALL && !bForceInSC
    {
      currentCallState, bForceInSC := NEW_CALL, false;
    }
  }

  class Service {
    const manager: PttManager
    const calls: CallStateManager
    const book: GroupManager
    var currentGroup: Option<string>
    var queue: seq<Command>
    var asleep: nat
    var exitFlag: bool
    var halted: bool

    constructor ()
      ensures fresh(manager) && fresh(manager.pttGroupStatus) && fresh(calls) && fresh(book)
      ensures View() == FloorSpec.START
    {
      manager := new PttManager();
      calls := new CallStateManager();
      book := new GroupManager();
      currentGroup, queue, asleep, exitFlag, halted := None, [], 0, false, false;
    }

    ghost function View(): Machine
      reads this, manager, manager.pttGroupStatus, calls, book
    {
      Machine(manager.pttGroupStatus.Value(), manager.ePttKeyStatus, manager.callState,
              calls.currentCallState, calls.bForceInSC, book.Value(), currentGroup,
              queue, asleep, exitFlag, halted)
    }

    // ---- PTTUtil and PTTManager ----

    method CheckIsGroupNum(callNum: Option<string>) returns (found: bool)
      ensures found <==> FloorSpec.IsGroup(book.list, callNum)
    {
      if Blank(callNum) {
        return false;
      }
      var list := book.list;
      for i := 0 to |list|
        invariant callNum.value !in list[..i]
      {
        if callNum.value == list[i] {
          return true;
        }
      }
      assert list[..|list|] == list;
      return false;
    }

    method GetCurrentGroupInfo() returns (number: Option<string>)
      ensures number == FloorSpec.CurrentGroup(View())
    {
      var found := CheckIsGroupNum(currentGroup);
      number := if found then currentGroup else None;
    }

    method CheckResult(ok: bool)
      modifies manager.pttGroupStatus
      ensures View() == FloorSpec.CheckResult(old(View()), ok)
    {
      if !ok {
        manager.pttGroupStatus.speakerNum := None;
        manager.pttGroupStatus.status := Free;
      }
    }

    method ApplyPttRight(env: Env)
      modifies manager.pttGroupStatus
      ensures View() == FloorSpec.ApplyRight(old(View()), env)
    {
      var grpNum := manager.pttGroupStatus.groupNum;
      if Blank(grpNum) {
        grpNum := GetCurrentGroupInfo();
        if grpNum.None? {
          return;
        }
      }
      manager.pttGroupStatus.groupNum := grpNum;
      if env.registered && book.list != [] {
        CheckResult(env.applyOk);
      }
    }

    method CancelPttRight(env: Env)
      modifies manager.pttGroupStatus
      ensures View() == FloorSpec.CancelRight(old(View()), env)
    {
      if book.list != [] {
        CheckResult(env.cancelOk);
      }
    }

    // ---- status updates ----

    method JniUpdatePttState(report: PttGroupStatus, env: Env)
      modifies manager.pttGroupStatus, report
      ensures report == old(manager.pttGroupStatus) ==> View() == FloorSpec.RefreshedState(old(View()), env)
      ensures report != old(manager.pttGroupStatus) ==>
                View() == FloorSpec.ReportedState(old(View()), old(report.Value()), env)
    {
      var iStatus := report.status;
      var ignored := AbsorbReport(report);
      if !ignored {
        SettleReport(iStatus, report, env);
      }
    }

    // JNIUpdatePTTState(pttManager.getCurrentPttState())
    method RefreshPttState(env: Env)
      modifies manager.pttGroupStatus
      ensures View() == FloorSpec.RefreshedState(old(View()), env)
    {
      JniUpdatePttState(manager.pttGroupStatus, env);
    }

    method DropSpeaker(env: Env)
      modifies manager.pttGroupStatus
      ensures
        var m := old(View());
        View() == FloorSpec.RefreshedState(m.(ptt := FloorSpec.FreeFloor(m.ptt)), env)
    {
      manager.pttGroupStatus.speakerNum := None;
      manager.pttGroupStatus.status := Free;
      RefreshPttState(env);
    }

    // The current object reported to itself changes nothing here.
    method AbsorbReport(report: PttGroupStatus) returns (ignored: bool)
      modifies manager.pttGroupStatus, report
      ensures report == manager.pttGroupStatus ==> !ignored && report.Value() == old(report.Value())
      ensures report != manager.pttGroupStatus ==>
                var src := old(report.Value());
                && (ignored <==> src.status in {Waiting, Rejected}
                                 && old(View()).ptt.status == Speaking && old(View()).key == Down)
                && (ignored ==> manager.pttGroupStatus.Value() == old(View()).ptt)
                && (!ignored ==> manager.pttGroupStatus.Value() == FloorSpec.Absorbed(old(View()), src).ptt
                                 && report.speakerNum == FloorSpec.Completed(old(View()).ptt, src).speaker)
    {
      var current := manager.pttGroupStatus;
      var iFormerPttStatus := current.status;
      ignored := false;
      if report.status == Free {
        match iFormerPttStatus {
          case Applying | Waiting | Accepted | Speaking | Rejected =>
            if manager.ePttKeyStatus == Up {
              manager.SetCurrentPttState(report);
            }
          case _ =>
            manager.SetCurrentPttState(report);
        }
      } else if report.status == Waiting || report.status == Rejected {
        if iFormerPttStatus == Speaking && manager.ePttKeyStatus == Down {
          return true;
        }
        report.groupNum := current.groupNum;
        report.speakerNum := current.speakerNum;
        manager.SetCurrentPttState(report);
      }
    }

    method SettleReport(iStatus: Status, report: PttGroupStatus, env: Env)
      modifies manager.pttGroupStatus
      ensures View() == FloorSpec.Settled(old(View()), iStatus, old(report.speakerNum) == Some(env.user), env)
    {
      if calls.bForceInSC || env.callOnTop {
        return;
      }
      PromoteSpeaker(iStatus, report, env);
      ClaimFloor(report, env);
      WithdrawClaim(env);
    }

    method PromoteSpeaker(iStatus: Status, report: PttGroupStatus, env: Env)
      modifies manager.pttGroupStatus
      ensures View() == FloorSpec.Promoted(old(View()), iStatus, old(report.speakerNum) == Some(env.user), env)
      ensures report.speakerNum == Some(env.user) <==> old(report.speakerNum) == Some(env.user)
    {
      var current := manager.pttGroupStatus;
      if manager.callState == Talking && iStatus != Speaking && manager.ePttKeyStatus == Down
         && report.speakerNum == Some(env.user) {
        current.status := Speaking;
        current.speakerNum := Some(env.user);
      }
    }

    method ClaimFloor(report: PttGroupStatus, env: Env)
      modifies manager.pttGroupStatus
      ensures View() == FloorSpec.Claimed(old(View()), old(report.speakerNum) == Some(env.user))
    {
      var current := manager.pttGroupStatus;
      var iStatus := current.status;
      if iStatus == Listening || iStatus == Speaking {
        if report.speakerNum == Some(env.user) {
          if manager.ePttKeyStatus == Up {
            current.status := Free;
            current.speakerNum := None;
          } else {
            current.status := Speaking;
          }
        }
      }
    }

    method WithdrawClaim(env: Env)
      modifies manager.pttGroupStatus
      ensures View() == FloorSpec.Withdrawn(old(View()), env)
    {
      var current := manager.pttGroupStatus;
      if manager.ePttKeyStatus == Up {
        match current.status {
          case Waiting | Applying =>
            CancelPttRight(env);
          case Accepted =>
            if manager.callState == CallIdle || manager.callState == Ended {
              current.status := Free;
              current.speakerNum := None;
            }
          case _ =>
        }
      }
    }

    method JniUpdateCallState(callState: Call, env: Env)
      modifies calls
      ensures View() == FloorSpec.SingleCallState(old(View()), callState, env)
    {
      calls.currentCallState := callState;
      if callState.state == Ended && !env.callScreen {
        calls.currentCallState := callState.(state := CallIdle);
      }
    }

    // ---- commands ----

    method SendPttCommand(command: Command)
      modifies this
      ensures View() == FloorSpec.Posted(old(View()), command)
    {
      queue := queue + [command];
    }

    method HandleCommand(command: Command, env: Env)
      modifies manager, manager.pttGroupStatus, calls
      ensures View() == FloorSpec.Handled(old(View()), command, env)
      ensures manager.pttGroupStatus == old(manager.pttGroupStatus) || fresh(manager.pttGroupStatus)
    {
      if exitFlag {
        return;
      }
      match command {
        case Apply =>
          if env.errorShowing || !env.registered {
            return;
          }
          if |book.list| == 0 {
            manager.pttGroupStatus.status := Init;
            return;
          }
          manager.pttGroupStatus.status := Applying;
          ApplyPttRight(env);
        case Cancel =>
          if Blank(manager.pttGroupStatus.speakerNum) {
            manager.pttGroupStatus.status := Free;
          } else {
            manager.pttGroupStatus.status := Listening;
          }
          CancelPttRight(env);
        case Hangup =>
          manager.pttGroupStatus.status := Free;
          manager.pttGroupStatus.speakerNum := None;
          manager.callState := Ending;
        case UpdateUi =>
        case ClosePtt =>
          manager.Clear();
        case MakeCall(number) =>
          MakeSingleCall(number, env);
        case AnswerCall | HangupCall =>
          if calls.currentCallState.callId >= 0 && !env.singleOk {
            calls.Clear();
          }
      }
    }

    method MakeSingleCall(number: Option<string>, env: Env)
      modifies manager.pttGroupStatus, calls
      ensures View() == FloorSpec.Made(old(View()), number, env)
    {
      var isGroup := CheckIsGroupNum(number);
      if isGroup {
        return;
      }
      calls.currentCallState := calls.currentCallState.(state := Dialing, number := number);
      var ok := env.registered;
      if env.registered {
        calls.bForceInSC := true;
        ok := env.singleOk;
        CheckResult(ok);
      }
      if !ok {
        calls.Clear();
      }
    }

    method DeliverCommand(env: Env)
      modifies this, manager, manager.pttGroupStatus, calls
      ensures View() == FloorSpec.Delivered(old(View()), env)
      ensures manager.pttGroupStatus == old(manager.pttGroupStatus) || fresh(manager.pttGroupStatus)
    {
      if queue != [] {
        var command := queue[0];
        queue := queue[1..];
        HandleCommand(command, env);
      }
    }

    // ---- m-Invite, m-Bye ----

    method MInviteIndicate(groupNum: Option<string>, speaker: Option<string>, env: Env)
      modifies manager, manager.pttGroupStatus, calls
      ensures View() == FloorSpec.Invited(old(View()), groupNum, speaker, env)
      ensures manager.pttGroupStatus == old(manager.pttGroupStatus) || fresh(manager.pttGroupStatus)
    {
      if groupNum.None? {
        manager.Clear();
        return;
      }
      var iSingleCallState := calls.currentCallState.state;
      if iSingleCallState != Ended && iSingleCallState != CallIdle {
        if !env.callOnTop && !calls.bForceInSC {
          calls.Clear();
        } else {
          var isGroup := CheckIsGroupNum(groupNum);
          if isGroup && !Blank(speaker) {
            manager.pttGroupStatus.status := Listening;
            manager.pttGroupStatus.speakerNum := speaker;
            manager.pttGroupStatus.groupNum := groupNum;
          }
          return;
        }
      }
      InviteOutsideCall(groupNum, speaker, env);
    }

    method InviteOutsideCall(groupNum: Option<string>, speaker: Option<string>, env: Env)
      modifies manager.pttGroupStatus
      ensures View() == FloorSpec.InvitedOutsideCall(old(View()), groupNum, speaker, env)
    {
      if Blank(speaker) {
        InviteFreed(groupNum, speaker, env);
      } else {
        InviteSpoken(groupNum, speaker, env);
      }
    }

    method InviteFreed(groupNum: Option<string>, speaker: Option<string>, env: Env)
      requires Blank(speaker)
      modifies manager.pttGroupStatus
      ensures View() == FloorSpec.InvitedSilently(old(View()), groupNum, speaker, env)
    {
      var current := manager.pttGroupStatus;
      match current.status {
        case Accepted | Applying =>
          return;
        case Waiting =>
          current.status := Applying;
          current.speakerNum := None;
          return;
        case _ =>
      }
      DropSpeaker(env);
      InviteGroup(groupNum, speaker, env);
    }

    method InviteSpoken(groupNum: Option<string>, speaker: Option<string>, env: Env)
      requires !Blank(speaker)
      modifies manager.pttGroupStatus
      ensures View() == FloorSpec.InvitedBy(old(View()), groupNum, speaker, env)
    {
      var current := manager.pttGroupStatus;
      var iPttStatus := current.status;
      current.status := Listening;
      current.speakerNum := speaker;
      if speaker == Some(env.user) {
        current.status := Speaking;
      } else {
        match iPttStatus {
          case Waiting | Applying | Rejected =>
            if manager.ePttKeyStatus == Down {
              current.status := iPttStatus;
              RefreshPttState(env);
              return;
            }
          case _ =>
        }
        current.status := Listening;
      }
      RefreshPttState(env);
      InviteGroup(groupNum, speaker, env);
    }

    method InviteGroup(groupNum: Option<string>, speaker: Option<string>, env: Env)
      modifies manager.pttGroupStatus
      ensures View() == FloorSpec.Grouped(old(View()), groupNum, speaker, env)
    {
      var current := manager.pttGroupStatus;
      current.groupNum := groupNum;
      if current.status == Idle {
        current.speakerNum := speaker;
        current.status := if speaker == Some(env.user) then Speaking else Listening;
      }
    }

    method MByeIndicate()
      modifies manager
      ensures View() == FloorSpec.Cleared(old(View())) && fresh(manager.pttGroupStatus)
    {
      manager.Clear();
    }

    // ---- group lists, registration ----

    method IsDeleted(currentGrpNum: string, groupInfos: seq<string>) returns (deleted: bool)
      ensures deleted <==> currentGrpNum !in groupInfos
    {
      for i := 0 to |groupInfos|
        invariant currentGrpNum !in groupInfos[..i]
      {
        if currentGrpNum == groupInfos[i] {
          return false;
        }
      }
      assert groupInfos[..|groupInfos|] == groupInfos;
      return true;
    }

    method StoreGroups(groupInfos: seq<string>)
      modifies this, book
      ensures View() == FloorSpec.Listed(old(View()), groupInfos)
    {
      if |groupInfos| == 0 {
        book.list := [];
        currentGroup := Some("");
        book.ClearNumMemberMap();
      } else {
        book.AddGroups(groupInfos);
        var currentGrpInfo := GetCurrentGroupInfo();
        if currentGrpInfo.None? {
          currentGroup := Some(groupInfos[0]);
        } else {
          var deleted := IsDeleted(currentGrpInfo.value, groupInfos);
          if deleted {
            // A group that was just found in the new list is never deleted from it.
            assert false;
          }
        }
      }
    }

    method StartPtt(env: Env)
      modifies manager, manager.pttGroupStatus, calls
      ensures View() == FloorSpec.Started(old(View()), env)
      ensures manager.pttGroupStatus == old(manager.pttGroupStatus) || fresh(manager.pttGroupStatus)
    {
      var currentGrpInfo := GetCurrentGroupInfo();
      if manager.pttGroupStatus.status == Init {
        if Blank(currentGrpInfo) {
          manager.Clear();
        } else {
          manager.pttGroupStatus.groupNum := currentGrpInfo;
          if manager.ePttKeyStatus == Down {
            HandleCommand(Apply, env);
          } else {
            manager.pttGroupStatus.status := Free;
          }
        }
      }
    }

    method Regroup(groupInfos: seq<string>, env: Env)
      requires book.list == groupInfos
      modifies this, manager, book
      ensures View() == FloorSpec.Regrouped(old(View()), env)
      ensures manager.pttGroupStatus == old(manager.pttGroupStatus) || fresh(manager.pttGroupStatus)
    {
      if book.dynamic {
        if !(calls.currentCallState.state != CallIdle && env.callOnTop)
           && manager.pttGroupStatus.status != Idle {
          var pttGrpNum := manager.pttGroupStatus.groupNum;
          var gone := |groupInfos| == 0;
          if !gone {
            if pttGrpNum.None? {
              halted := true;
              return;
            }
            gone := IsDeleted(pttGrpNum.value, groupInfos);
          }
          if gone {
            manager.Clear();
          }
        }
        book.ClearNumMemberMap();
      }
      book.dynamic := false;
    }

    method JniAddGroupInfo(groupInfos: seq<string>, env: Env)
      modifies this, manager, manager.pttGroupStatus, calls, book
      ensures View() == FloorSpec.GroupsAdded(old(View()), groupInfos, env)
      ensures manager.pttGroupStatus == old(manager.pttGroupStatus) || fresh(manager.pttGroupStatus)
    {
      StoreGroups(groupInfos);
      StartPtt(env);
      Regroup(groupInfos, env);
    }

    method JniUpdateRegisterState()
      modifies manager, calls, book
      ensures View() == FloorSpec.Unregistered(old(View()))
      ensures manager.pttGroupStatus == old(manager.pttGroupStatus) || fresh(manager.pttGroupStatus)
    {
      if manager.pttGroupStatus.status != Idle {
        manager.Clear();
      }
      if calls.currentCallState.state != CallIdle {
        calls.Clear();
      }
      book.Clear();
    }
  }
}
