/**
  The values the push-to-talk (PTT) floor is made of: the shared group status, the key, the
  single-call state, the group book, and the commands that wait in the broadcast queue.
  `Machine` is one snapshot of all of them between two handlers.
 */
module PttState {
  import opened Basics

  // PTTConstant, "ptt ui state", codes -1 to 12 in this order.
  datatype Status =
    | Idle | Init | Free | Listening | Busy | Waiting | Rejected | Canceled
    | Forbidden | Speaking | Accepted | Applying | Canceling | Closed

  // PTTConstant, "call state".
  datatype CallStatus =
    | CallIdle | Dialing | RingBack | Ringing | Talking | Ended | Ending
    | CallError | CallCanceling | CallRejecting

  datatype Key = Up | Down

  // The fields of PttGroupStatus that some handler reads. Java's null is None.
  datatype Ptt = Ptt(
    status: Status,
    speaker: Option<string>,
    group: Option<string>,
    callId: int,
    rejectReason: int)

  const NEW_PTT := Ptt(Idle, None, None, -1, 0)

  // The fields of CallState that some handler reads.
  datatype Call = Call(callId: int, number: Option<string>, state: CallStatus, errorCode: int)

  const NEW_CALL := Call(0, None, CallIdle, 0)

  // GroupManager: group numbers in list order, members received so far, regrouping announced.
  datatype Groups = Groups(list: seq<string>, members: map<string, seq<string>>, dynamic: bool)

  datatype Command =
    | Apply | Cancel | Hangup | UpdateUi | ClosePtt
    | MakeCall(number: Option<string>) | AnswerCall | HangupCall

  datatype Machine = Machine(
    ptt: Ptt,
    key: Key,
    pttCall: CallStatus,              // PTTManager.callState
    call: Call,                       // CallStateManager.currentCallState
    force: bool,                      // CallStateManager.bForceInSC
    groups: Groups,
    currentGroup: Option<string>,     // the stored preference PTT_SP_CURR_GRP_NUM
    queue: seq<Command>,              // commands broadcast and not yet delivered
    asleep: nat,                      // key-up handlers inside their 300 ms sleep
    exiting: bool,                    // StateManager.exitFlag
    halted: bool)                     // a handler ended in a NullPointerException

  // What one handler learns from outside: the logged-in user, the activity on top, and the
  // results of native calls.
  datatype Env = Env(
    user: string,
    pttOnTop: bool,
    callOnTop: bool,
    callScreen: bool,                 // InCallScreenActivity.instance is not null
    registered: bool,
    errorShowing: bool,
    applyOk: bool,
    cancelOk: bool,
    singleOk: bool)

  datatype Event =
    | KeyDown
    | KeyUp                           // sets the key and falls asleep
    | KeyUpWake                       // the same handler, 300 ms later
    | Deliver                         // the first queued command reaches the service
    | Post(command: Command)          // a screen broadcasts a command
    | MInvite(group: Option<string>, speaker: Option<string>)
    | MBye
    | RightResponse(response: Status)
    | CallReport(call: Call)
    | PttReport(report: Ptt)
    | GroupInfo(numbers: seq<string>)
    | RegroupNotice
    | RegistrationLost
    | SingleCallCleared
    | ExitRequested

  // trim().length() == 0: Java's trim drops every character up to the space.
  predicate BlankText(s: string) {
    forall c | c in s :: c <= ' '
  }

  predicate Blank(o: Option<string>) {
    o.None? || BlankText(o.value)
  }

  // TextUtils.isEmpty
  predicate Empty(o: Option<string>) {
    o.None? || o.value == ""
  }
}
