# Verified model of the push-to-talk terminal

A Dafny model of the stateful cores of the zzy push-to-talk (PTT) terminal and of the pjsip ports it ships with.
Code that changes objects step by step is a class or a method here, proved against a specification function on
plain values; the lemmas then speak about those functions over every step and every run.

| files | what they model |
|---|---|
| `Basics.dfy`, `PttState.dfy` | shared types: the PTT status object, calls, group lists, queued commands, events |
| `FloorSpec.dfy`, `FloorSafety.dfy`, `FloorRuns.dfy`, `FloorVoice.dfy`, `FloorRequests.dfy`, `FloorLaws.dfy`, `FloorCases.dfy` | the PTT floor as a step function, what its runs keep, what each handler is for, and runs that reach its breaches |
| `PttService.dfy`, `PttCallbacks.dfy` | the handlers as methods over the shared mutable objects, each proved to take the state where the step function says |
| `GroupRoster.dfy` | the group list and the collection of its members |
| `TimerSpec.dfy`, `TimerSafety.dfy`, `TimerLaws.dfy`, `TimerHeaps.dfy` | the Android timer slot table |
| `MessageSpec.dfy`, `MessageSafety.dfy`, `MessageTable.dfy` | message threads |
| `CallLog.dfy`, `CallLogDb.dfy` | the bounded call log and its paging |
| `Pacing.dfy` | the recorder thread's feedback loop |
| `Hmac.dfy` | HMAC-MD5 against section 2 of RFC 2104 |
| `IpText.dfy` | dotted addresses: printer, parser, validator |
| `CharSets.dfy` | the scanner's character sets, bit-sliced and plain |
| `Capability.dfy` | the camera capability choice |

## How to read it

*The floor.* One `Machine` holds the PTT status object, the key, the call state PTTManager keeps, the single call,
the group manager, the stored current group, the queue of broadcast commands and the number of key-up handlers still
asleep. Each handler is one step; key-up is two, because it sleeps 300 ms between setting the key and reading the
status. Native results, the top activity, the login and the error flag arrive as an `Env` with every step. The status
object is shared: when `JNIUpdatePTTState` is called with the current object itself, its former and new status are the
same field (`RefreshedState`), otherwise native code brings an object of its own (`ReportedState`).

*The timers.* A `Table` holds the registry of heaps, the cursor, the slots of every heap, the heap ids and the
`_timer_id` of every entry. Operations report outcomes (accepted, fired, cancelled), so that conservation and
at-most-once can be stated over whole runs.

*SQLite* is a sequence of rows. What its documentation leaves open (the order of equal times, the row a bare
`group by` picks) is a parameter constrained only by what the query promises.

## Where the code falls short of what it is for

Each of these has its exact condition as an if-and-only-if, or a run or input that shows it, and mostly both.

- FREE can keep naming a speaker: the INIT to FREE assignment at `PTTService.java:1003` leaves the old one
  (`StepKeepsSpeaker`, `FreeCanNameASpeaker`). A login made of spaces opens a second way (`FreeCanTakeAName`).
- LISTENING can come to name nobody while the stored login is blank, its default, when a group call is answered with the
  key down and a single call on top (`StepKeepsSpeaker`, `ListenerCanLoseSpeaker`).
- A released key can stay SPEAKING: while a single call is forced or on top, or when the exit flag swallows the queued
  hangup (`StepKeepsHangupDue`, `SingleCallStrands`, `AnsweringStrands`, `ExitStrands`).
- A released key can stay APPLYING: a short press whose command arrives after the key-up handler woke is called off by
  nobody (`StepKeepsCancelDue`, `LateRequestStrands`).
- A native report can leave SPEAKING naming somebody else (`StepKeepsVoice`, `ReportCanMisname`).
- A dynamic regrouping dereferences the PTT group, which can be null (`RegroupingKeepsFloorListed`, `RegroupingCanHalt`).
- A plain new group list keeps the members of groups that left it, and they are counted as answers
  (`StepTidy`, `StaleAnswersCount`).
- The guard of `pj_timer_heap_schedule` is `_timer_id < 1`, so an entry already in slot 0 is taken twice; a full heap
  answers success; heap creation never searches below the cursor, and a heap it could not register carries whatever id
  its memory held, which destroy then uses (`StepExact`, `SlotZeroCanDouble`, `FullHeapForgets`, `CreateRegisters`,
  `DestroyKeepsOthers`, `FullRegistryEvicts`).
- Resending a message held by a screen since before its session was deleted can mix two conversations
  (`StepKeepsThreads`, `StaleResendMixesThreads`).
- `deleteSession` answers whether rows went only for sessions of at most one message (`DeleteSession`, `TwoMessageSession`).
- The call log outgrows its bound when storage fails to count or to delete but still inserts
  (`SavedKeepsBound`, `UncountedSaveOutgrows`).
- The IP parser takes texts the validator refuses: outer spaces, a final dot, signs, and octets that are too long or too
  large (`ParserAgreesExactly`, `DigitPiecesParse`, `SpaceIsIgnored`, `PlusIsIgnored`, `TrailingDotIsIgnored`).
- The capability cascade only ever compares heights, because every inner test falls through to the assignment after it
  (`WrittenIsIntended`, `WorseWidthWins`).

## Model

| member | source | states |
|---|---|---|
| FloorSafety.StepKeepsSpeaker | src/com/zzy/ptt/service/PTTService.java:1093-1416 | for every handler and every login, blank ones included: LISTENING keeps naming a speaker exactly unless a group call is answered with the key down, a single call on top and a blank login; FREE keeps naming none exactly unless the group list ends INIT with the key up, or a call replaces a speaker of spaces |
| FloorSafety.CallShownExact | src/com/zzy/ptt/jni/JniCallback.java:96-324 | a call report of any state, error code and login keeps each speaker rule exactly under the named conditions |
| FloorSafety.RespondedNoWorse | src/com/zzy/ptt/jni/JniCallback.java:421-466 | each of the six right responses keeps the speaker rules, whatever the login |
| FloorSafety.InvitedNoWorse | src/com/zzy/ptt/service/PTTService.java:1328-1392 | an m-Invite outside a single call keeps the speaker rules, whatever the login |
| FloorSafety.ReportedNoWorse | src/com/zzy/ptt/service/PTTService.java:1093-1260 | a native report whose FREE carries no speaker keeps the speaker rules, whatever the login |
| FloorSafety.GroupsAddedExact | src/com/zzy/ptt/service/PTTService.java:969-1051 | a group list keeps LISTENING named always, and FREE silent exactly unless it ends INIT with the key up and a speaker left |
| FloorRuns.RunKeepsSpeaker | src/com/zzy/ptt/service/PTTService.java:1093-1416 | over every run of events and queued commands LISTENING names a non-blank speaker until a step unnames it, and FREE none until a step leaks one |
| FloorRuns.LoggedInRunKeepsSpeaker | src/com/zzy/ptt/service/PTTService.java:1093-1416 | from the start, with logins that are not blank, LISTENING always names a speaker and FREE has none, null or empty, as long as no group list leaks one |
| FloorCases.ListenerCanLoseSpeaker | src/com/zzy/ptt/jni/JniCallback.java:225-270 | a four-step run with the default login ends LISTENING to nobody |
| FloorCases.FreeCanTakeAName | src/com/zzy/ptt/jni/JniCallback.java:225-270 | an eight-step run across a login of one space and another login ends FREE with a speaker |
| FloorRuns.FreeCanNameASpeaker | src/com/zzy/ptt/service/PTTService.java:995-1006 | a six-step run from the start ends FREE with the old speaker |
| FloorRuns.StepKeepsHangupDue | src/com/zzy/ptt/service/PTTKeyReceiver.java:77-134 | from any state, SPEAKING with the key up keeps a sleeping key-up handler or a queued hangup after a step exactly when the step is not one of the named strandings |
| FloorRuns.RunKeepsHangupDue | src/com/zzy/ptt/service/PTTService.java:1170-1196 | the same over every run without a stranding step |
| FloorRuns.UndisturbedIsUnstranded | src/com/zzy/ptt/service/PTTService.java:392-407 | a run that starts with LISTENING named and meets no single call and no exit flag has no stranding step |
| FloorRuns.DeliveryShortens | src/com/zzy/ptt/service/PTTService.java:318-524 | handling a queued command takes exactly the first one off the queue, posts none, and never presses the key |
| FloorRuns.DrainingEndsSpeech | src/com/zzy/ptt/service/PTTService.java:392-407 | waking sleepers and delivering commands in any order, until none is left, leaves a released key not SPEAKING, whatever native calls answer |
| FloorRuns.DrainStepShortens | src/com/zzy/ptt/service/PTTService.java:318-524 | each wake or delivery leaves less to do, or does nothing when there is nothing to do |
| FloorRuns.DrainingComesToAnEnd | src/com/zzy/ptt/service/PTTService.java:318-524 | from every state there is such a drain that ends with nothing asleep and nothing queued |
| FloorRuns.UndisturbedRunDrains | src/com/zzy/ptt/service/PTTKeyReceiver.java:77-134 | any undisturbed run from the start, then drained in any order with the key up, is not SPEAKING |
| FloorRuns.SingleCallStrands | src/com/zzy/ptt/service/PTTService.java:1128-1153 | with a single call on top one m-Invite naming this terminal leaves it SPEAKING with nobody due to hang up |
| FloorCases.AnsweringStrands | src/com/zzy/ptt/jni/JniCallback.java:225-270 | a run in which a listener named in a single call answers a group call and stays SPEAKING with the key up |
| FloorCases.ExitStrands | src/com/zzy/ptt/service/PTTService.java:318-328 | a run in which the exit flag swallows the queued hangup and the released key stays SPEAKING |
| FloorRequests.StepKeepsOrdinary | src/com/zzy/ptt/jni/JniCallback.java:421-466 | the protocol codes BUSY, FORBIDDEN and CLOSED are never stored, after any handler |
| FloorRequests.RunKeepsOrdinary | src/com/zzy/ptt/jni/JniCallback.java:421-466 | the same over every run |
| FloorRequests.PressAsks | src/com/zzy/ptt/service/PTTKeyReceiver.java:136-204 | outside a single call a press posts a request exactly when the floor is not asked for, granted, spoken on or being given back; a repeated press follows its own exact rule; nothing else changes but the key |
| FloorRequests.RequestLaw | src/com/zzy/ptt/service/PTTService.java:331-377 | press and delivery on a floor nobody holds end APPLYING for the right group exactly when registered, with groups, no error shown and the native request accepted; INIT without groups, FREE on a native failure |
| FloorRequests.StepKeepsCancelDue | src/com/zzy/ptt/service/PTTKeyReceiver.java:101-105 | from any state a released key that asks keeps a sleeping handler or a queued cancel after a step, exactly unless the step is one of the named strandings |
| FloorRequests.DrainingEndsRequest | src/com/zzy/ptt/service/PTTService.java:378-391 | drained in any order, a released terminal with no request on its way ends neither APPLYING nor WAITING |
| FloorRequests.ReleaseEndsRequest | src/com/zzy/ptt/service/PTTKeyReceiver.java:77-134 | a release and any drain end neither APPLYING nor WAITING, whatever the terminal was doing |
| FloorRequests.LateRequestStrands | src/com/zzy/ptt/service/PTTKeyReceiver.java:77-134 | a short press whose request is delivered after the wake ends APPLYING with the key up and no cancel due |
| FloorLaws.SilentInviteLaw | src/com/zzy/ptt/service/PTTService.java:1327-1348 | an m-Invite naming nobody opens the floor of its group, leaves a request or granted right alone, and renews a queued request |
| FloorLaws.OwnInviteLaw | src/com/zzy/ptt/service/PTTService.java:1349-1383 | one naming the own user gives the floor to a pressed key and opens it for a released one |
| FloorLaws.OtherInviteLaw | src/com/zzy/ptt/service/PTTService.java:1349-1383 | one naming somebody else makes the terminal listen, unless its pressed key is asking |
| FloorLaws.InviteDuringCallLaw | src/com/zzy/ptt/service/PTTService.java:1299-1322 | during a single call a listed group's speaker is noted and nothing else |
| FloorLaws.ClosingLaw | src/com/zzy/ptt/service/PTTService.java:1421-1434 | an m-Bye and an m-Invite without a group close PTT and change nothing else |
| FloorLaws.RegistrationLaw | src/com/zzy/ptt/service/PTTService.java:714-769 | a lost registration closes PTT unless closed, ends the single call and forgets the groups |
| FloorLaws.ResponseLaw | src/com/zzy/ptt/jni/JniCallback.java:421-466 | the status each right response leads to, by key, for every floor that does not name the own user |
| FloorLaws.SpeakerIgnoresResponses | src/com/zzy/ptt/jni/JniCallback.java:429-431 | a response never interrupts the own speech |
| FloorLaws.FreeReportLaw | src/com/zzy/ptt/service/PTTService.java:1109-1133 | a FREE report opens the floor, except under a pressed key that asks or speaks |
| FloorLaws.QueuedReportLaw | src/com/zzy/ptt/service/PTTService.java:1135-1146 | a queued or refused report keeps group, speaker and call under a pressed key and never interrupts speech |
| FloorLaws.ReleasedReportLaw | src/com/zzy/ptt/service/PTTService.java:1135-1222 | under a released key it is taken too, and a queued request cancelled at once |
| FloorLaws.OwnReportLaw | src/com/zzy/ptt/service/PTTService.java:1170-1196 | a report that the own user speaks gives a heard floor to a pressed key and frees it for a released one |
| FloorLaws.RingingLaw | src/com/zzy/ptt/jni/JniCallback.java:172-207 | a ringing group call is taken under its id from every state that may await one |
| FloorLaws.TalkingGivesFloor | src/com/zzy/ptt/jni/JniCallback.java:225-270 | a group call answered with the key down gives this terminal the floor under its own name, group and call id |
| FloorLaws.EndedFreesFloor | src/com/zzy/ptt/jni/JniCallback.java:296-315 | the end of a group call frees a floor spoken or listened on |
| FloorLaws.EndedGivesBack | src/com/zzy/ptt/jni/JniCallback.java:276-295 | under a released key it gives a granted right back and cancels a queued one |
| FloorLaws.SingleCallIsShown | src/com/zzy/ptt/jni/JniCallback.java:326-369 | a call on no group is stored exactly where the screens leave room, and never touches the floor |
| FloorLaws.GroupErrorLaw | src/com/zzy/ptt/jni/JniCallback.java:122-141 | errors 486 and 504 of a group call free the floor, others do not |
| FloorLaws.SingleErrorLaw | src/com/zzy/ptt/jni/JniCallback.java:107-121 | an error during a single call is shown to it, except over a ringing or refused call unless it is the busy signal that ended it |
| FloorLaws.MakeCallLaw | src/com/zzy/ptt/service/PTTService.java:438-461 | a group number is refused, any other dials; a native failure clears the call and frees the floor |
| FloorLaws.AnswerLaw | src/com/zzy/ptt/service/PTTService.java:469-519 | answering or hanging up clears the single call exactly when native code fails |
| FloorLaws.CloseLaw | src/com/zzy/ptt/service/PTTService.java:424-437 | closing from the screen is like an m-Bye; after the exit flag nothing happens |
| FloorLaws.GroupListLaw | src/com/zzy/ptt/service/PTTService.java:989-1007 | a group list ends INIT with a request under a pressed key and an open floor under a released one |
| FloorLaws.WakeLaw | src/com/zzy/ptt/service/PTTKeyReceiver.java:101-131 | what the woken key-up handler posts and acknowledges, by status |
| FloorLaws.CommandLaw | src/com/zzy/ptt/service/PTTService.java:378-407 | what its command does |
| FloorLaws.ReleaseLaw | src/com/zzy/ptt/service/PTTKeyReceiver.java:77-134 | release, wake and delivery together give up what was held or asked for and change nothing else |
| FloorLaws.TalkBurst | src/com/zzy/ptt/service/PTTKeyReceiver.java:77-204 | pressed on an open floor, granted, called and released: SPEAKING under the own name on the right group, then FREE, for every such state and call |
| FloorRuns.GroupInfoKeepsCurrentListed | src/com/zzy/ptt/service/PTTService.java:969-988 | after any group list the stored current group is in it, unchanged when it already was, and blank for an empty list |
| FloorRuns.RegroupingKeepsFloorListed | src/com/zzy/ptt/service/PTTService.java:1009-1050 | after a dynamic list outside a single call PTT is idle or its group is listed; the handler fails exactly when the PTT group it dereferences is null |
| FloorRuns.RegroupingCanHalt | src/com/zzy/ptt/service/PTTService.java:1021-1025 | a run from the start in which the regrouping handler dereferences a null PTT group |
| FloorRuns.StepFollowsRoster | src/com/zzy/ptt/service/PTTService.java:969-1060 | the floor's handlers change the group manager exactly as its own step relation does |
| FloorVoice.StepKeepsVoice | src/com/zzy/ptt/service/PTTService.java:1155-1186 | SPEAKING keeps naming the logged-in user after a step exactly when the step is neither a report that misnames it nor a group call answered while listening to nobody |
| FloorVoice.RunKeepsVoice | src/com/zzy/ptt/service/PTTService.java:1155-1186 | over every run of one login, blank or not, only such a report can break it |
| FloorVoice.ReportCanMisname | src/com/zzy/ptt/service/PTTService.java:1172-1185 | a three-step run that ends SPEAKING with another terminal's number |
| PttService.PttManager.SetCurrentPttState | src/com/zzy/ptt/service/PTTManager.java:68-82 | every field but the call id is copied into the shared object |
| PttService.PttManager.Clear | src/com/zzy/ptt/service/PTTManager.java:89-96 | a fresh status object and the key up |
| PttService.Service.CheckIsGroupNum | src/com/zzy/ptt/util/PTTUtil.java:715-733 | true exactly for a non-blank number in the group list |
| PttService.Service.GetCurrentGroupInfo | src/com/zzy/ptt/util/PTTUtil.java:681-705 | the stored current group when it is listed, else none |
| PttService.Service.CheckResult | src/com/zzy/ptt/proxy/SipProxy.java:79-104 | a failed native result frees the floor, success leaves it |
| PttService.Service.ApplyPttRight | src/com/zzy/ptt/service/PTTManager.java:109-129 | the group is filled in and the request made only when registered with groups, as the floor step says |
| PttService.Service.CancelPttRight | src/com/zzy/ptt/service/PTTManager.java:131-145 | no request without groups; otherwise its result is checked |
| PttService.Service.JniUpdatePttState | src/com/zzy/ptt/service/PTTService.java:1093-1260 | the aliased and the foreign report each take the shared state where the floor step says |
| PttService.Service.JniUpdateCallState | src/com/zzy/ptt/service/PTTService.java:776-850 | the single call is replaced, and idle once an ended call has no screen |
| PttService.Service.HandleCommand | src/com/zzy/ptt/service/PTTService.java:318-524 | each queued command takes the shared state where the floor step says; the exit flag drops it |
| PttService.Service.MInviteIndicate | src/com/zzy/ptt/service/PTTService.java:1267-1416 | the m-Invite handler equals its floor step, timeouts and single calls included |
| PttService.Service.MByeIndicate | src/com/zzy/ptt/service/PTTService.java:1421-1434 | the m-Bye handler clears PTT and nothing else |
| PttService.Service.IsDeleted | src/com/zzy/ptt/service/PTTService.java:938-947 | true exactly when the number is not among the new groups |
| PttService.Service.StoreGroups | src/com/zzy/ptt/service/PTTService.java:972-988 | list and stored current group as the floor step says; its deleted branch cannot be reached |
| PttService.Service.Regroup | src/com/zzy/ptt/service/PTTService.java:1009-1050 | the dynamic part of a group list equals its floor step, the null dereference included |
| PttService.Service.JniAddGroupInfo | src/com/zzy/ptt/service/PTTService.java:969-1051 | the whole group-list handler equals its floor step |
| PttService.Service.JniUpdateRegisterState | src/com/zzy/ptt/service/PTTService.java:714-769 | losing the registration clears PTT, single call and groups |
| PttCallbacks.HandlePttDown | src/com/zzy/ptt/service/PTTKeyReceiver.java:136-204 | key down equals its floor step, and posts a request exactly when the terminal asks |
| PttCallbacks.HandlePttUp | src/com/zzy/ptt/service/PTTKeyReceiver.java:77-94 | the part of key up before the sleep |
| PttCallbacks.WakePttUp | src/com/zzy/ptt/service/PTTKeyReceiver.java:101-131 | the part of key up after the sleep, on the status of that moment |
| PttCallbacks.ReceivePttRightResponse | src/com/zzy/ptt/jni/JniCallback.java:421-466 | the right-response callback equals its floor step |
| PttCallbacks.ShowCallState | src/com/zzy/ptt/jni/JniCallback.java:96-369 | the call-state callback equals its floor step, errors and routing included |
| PttCallbacks.UpdatePttState | src/com/zzy/ptt/jni/JniCallback.java:408-410 | a native report is handled as an object of its own |
| PttCallbacks.Dispatch | src/com/zzy/ptt/jni/JniCallback.java:96-466 | every event's handler, run on the shared objects, equals one step of the floor |
| GroupRoster.SizeTellsCompleteness | src/com/zzy/ptt/service/GroupManager.java:102-109 | when members are kept for listed groups only, equal sizes mean exactly that every listed group has its members and no number is listed twice |
| GroupRoster.StepTidy | src/com/zzy/ptt/service/PTTService.java:969-1091 | members stay within the list after a step exactly unless it answers an unlisted group or is a plain list that drops an answered one |
| GroupRoster.RunTellsCompleteness | src/com/zzy/ptt/service/GroupManager.java:55-118 | over every run without such a step the size test tells the truth |
| GroupRoster.StaleAnswersCount | src/com/zzy/ptt/service/PTTService.java:976-988 | a run in which the size test is true and a listed group has no members |
| GroupRoster.RosterLaw | src/com/zzy/ptt/service/PTTService.java:969-1091 | the list, members and announcement each step leaves |
| GroupRoster.FirstReplyStays | src/com/zzy/ptt/service/GroupManager.java:88-96 | after any replies each group holds what it had, or its first reply, and nothing else appears |
| GroupRoster.RepliesComplete | src/com/zzy/ptt/service/PTTService.java:1082-1091 | asking anew, the size test turns true exactly when every listed group has replied, in any order with any repeats |
| GroupRoster.GroupManager.AddGroups | src/com/zzy/ptt/service/GroupManager.java:55-63 | the list becomes the given one |
| GroupRoster.GroupManager.AddReceivedMembers | src/com/zzy/ptt/service/GroupManager.java:88-96 | a first reply is stored, a repeated one ignored |
| GroupRoster.GroupManager.CheckReceiveAll | src/com/zzy/ptt/service/GroupManager.java:102-109 | answers the size comparison |
| GroupRoster.GroupManager.ReceiveMemberInfo | src/com/zzy/ptt/service/PTTService.java:1082-1091 | stores the reply and tells the interface exactly when the sizes agree |
| TimerSafety.StepExact | jni/pjsip/android_sources/pjlib/src/timer_android.c:72-143 | every operation keeps back-pointers, exclusive slots, registry ids and the account of schedules exactly when its caller keeps the named guard |
| TimerSafety.ScheduleExact | jni/pjsip/android_sources/pjlib/src/timer_android.c:263-284 | scheduling is sound exactly when it is refused, or the entry is in no live heap and the heap has a free slot |
| TimerSafety.CancelExact | jni/pjsip/android_sources/pjlib/src/timer_android.c:108-143 | cancelling is sound exactly when the slot it empties held that entry |
| TimerSafety.FireSound | jni/pjsip/android_sources/pjlib/src/timer_android.c:340-411 | firing is always sound |
| TimerSafety.DestroySound | jni/pjsip/android_sources/pjlib/src/timer_android.c:206-226 | destroying is always sound, whatever the native cancels answer |
| TimerSafety.CreateSound | jni/pjsip/android_sources/pjlib/src/timer_android.c:163-204 | creating a heap is always sound |
| TimerSafety.CreateRegisters | jni/pjsip/android_sources/pjlib/src/timer_android.c:186-200 | a new heap enters the registry exactly when there is room at or after the cursor |
| TimerSafety.DestroyKeepsOthers | jni/pjsip/android_sources/pjlib/src/timer_android.c:206-226 | destroying a heap leaves the others registered exactly when its id is its own place or an empty one |
| TimerSafety.FullRegistryEvicts | jni/pjsip/android_sources/pjlib/src/timer_android.c:186-226 | with every place taken a further heap gets none, and destroying it takes away the place its memory names |
| TimerSafety.CreatedMany | jni/pjsip/android_sources/pjlib/src/timer_android.c:163-204 | n creations from the empty table fill the first n places, and 64 fill them all |
| TimerSafety.RunConserves | jni/pjsip/android_sources/pjlib/src/timer_android.c:72-411 | over every guarded run, for each heap and entry, accepted schedules minus callbacks minus cancels is 1 while the entry waits there and 0 otherwise |
| TimerSafety.RunCounts | jni/pjsip/android_sources/pjlib/src/timer_android.c:314-325 | over every guarded run the heap count grows by accepted schedules minus callbacks and cancels |
| TimerSafety.FiresAtMostOnce | jni/pjsip/android_sources/pjlib/src/timer_android.c:340-411 | from an empty table accepted schedules equal callbacks plus cancels plus what still waits |
| TimerSafety.StepStaysSilent | jni/pjsip/android_sources/pjlib/src/timer_android.c:340-411 | an entry out of the heap, or on a destroyed one, does not fire there in a guarded step other than scheduling it again |
| TimerSafety.NeverFiresAgain | jni/pjsip/android_sources/pjlib/src/timer_android.c:108-143 | the same over every guarded run without a new schedule |
| TimerSafety.DestroyedStaysSilent | jni/pjsip/android_sources/pjlib/src/timer_android.c:206-226 | nothing fires on a destroyed heap in any guarded run, even when the native cancels refused |
| TimerSafety.TakenOutIsSilent | jni/pjsip/android_sources/pjlib/src/timer_android.c:108-143 | a counted cancel, a callback and a destroy each leave the entry silent |
| TimerSafety.SlotZeroCanDouble | jni/pjsip/android_sources/pjlib/src/timer_android.c:273-274 | an entry in slot 0 is accepted again and then sits in two slots |
| TimerSafety.FullHeapForgets | jni/pjsip/android_sources/pjlib/src/timer_android.c:84-105 | a full heap answers success and holds the entry nowhere |
| TimerLaws.CreateLaw | jni/pjsip/android_sources/pjlib/src/timer_android.c:163-204 | 64 places, 128 empty slots, the first free place from the cursor on, everything else unchanged |
| TimerLaws.InitAccepts | jni/pjsip/android_sources/pjlib/src/timer_android.c:248-284 | an initialised entry is accepted by every live heap |
| TimerLaws.ScheduleTakesIn | jni/pjsip/android_sources/pjlib/src/timer_android.c:72-105 | an accepted entry sits in the lowest empty slot, which it names; everything else stays |
| TimerLaws.ScheduleRefuses | jni/pjsip/android_sources/pjlib/src/timer_android.c:273-274 | an entry that names slot 1 or above is refused |
| TimerLaws.CancelTakesOut | jni/pjsip/android_sources/pjlib/src/timer_android.c:108-143 | a waiting entry, in whichever slot, is taken out and counted exactly when the alarm service agrees |
| TimerLaws.CancelOfIdleEntry | jni/pjsip/android_sources/pjlib/src/timer_android.c:108-143 | cancelling an entry that waits nowhere does nothing |
| TimerLaws.FireTakesOut | jni/pjsip/android_sources/pjlib/src/timer_android.c:340-411 | the callback of an entry on a registered heap runs and the entry leaves its slot |
| TimerLaws.FireOfIdleEntry | jni/pjsip/android_sources/pjlib/src/timer_android.c:340-411 | without such a heap no callback runs |
| TimerLaws.DestroyLaw | jni/pjsip/android_sources/pjlib/src/timer_android.c:206-226 | destroying empties exactly the slots of its heap whose native cancel succeeds |
| TimerLaws.DestroyEnds | jni/pjsip/android_sources/pjlib/src/timer_android.c:206-226 | it ends the heap, empties its place and moves the cursor on by one |
| TimerLaws.DestroyEmpties | jni/pjsip/android_sources/pjlib/src/timer_android.c:206-226 | when the alarm service agrees throughout, the count of the heap is 0 |
| TimerLaws.LifeOfAnEntry | jni/pjsip/android_sources/pjlib/src/timer_android.c:72-411 | initialised and scheduled, then fired or cancelled: exactly one outcome, and the table is as before the schedule |
| TimerHeaps.TimerHeap.Take | jni/pjsip/android_sources/pjlib/src/timer_android.c:80-90 | the first empty slot takes the entry, or none does |
| TimerHeaps.TimerHeap.Count | jni/pjsip/android_sources/pjlib/src/timer_android.c:314-325 | the number of filled slots |
| TimerHeaps.TimerModule.Create | jni/pjsip/android_sources/pjlib/src/timer_android.c:163-204 | the arrays change as the created table says |
| TimerHeaps.TimerModule.InitEntry | jni/pjsip/android_sources/pjlib/src/timer_android.c:248-261 | a new or used entry is initialised as the table step says, which keeps the invariant when no live heap holds it |
| TimerHeaps.TimerModule.ScheduleEntry | jni/pjsip/android_sources/pjlib/src/timer_android.c:72-105 | slot and back-pointer change as the scheduled table says |
| TimerHeaps.TimerModule.Schedule | jni/pjsip/android_sources/pjlib/src/timer_android.c:263-284 | the guard, then the same, with the answer given |
| TimerHeaps.TimerModule.Cancel | jni/pjsip/android_sources/pjlib/src/timer_android.c:108-143 | the slots change as the table says; a waiting entry of a live heap is released and counted whenever the alarm service agrees |
| TimerHeaps.TimerModule.Destroy | jni/pjsip/android_sources/pjlib/src/timer_android.c:206-226 | sweep, cursor and registry change as the destroyed table says |
| TimerHeaps.TimerModule.FindHeap | jni/pjsip/android_sources/pjlib/src/timer_android.c:352-378 | the first registered heap that holds the entry |
| TimerHeaps.TimerModule.Fire | jni/pjsip/android_sources/pjlib/src/timer_android.c:340-411 | the entry leaves its slot and the heap for its callback is returned, or nothing changes |
| MessageSafety.AddedExact | src/com/zzy/ptt/db/MessageCl.java:215-254 | adding a message keeps thread ids and addresses in step exactly when the thread it brings fits the table |
| MessageSafety.NewThreadMeaning | src/com/zzy/ptt/db/MessageCl.java:215-254 | the id given is 1 for an empty table, above every existing id for thread 0, else the one brought |
| MessageSafety.ThreadOfMeaning | src/com/zzy/ptt/db/MessageCl.java:94-104 | the looked-up thread is 0 exactly for an unknown address, and otherwise the thread of all its rows |
| MessageSafety.ExchangedFits | src/com/zzy/ptt/service/MessageReceiver.java:57-86 | looking the thread up and then adding keeps the correspondence |
| MessageSafety.StepKeepsThreads | src/com/zzy/ptt/db/MessageCl.java:215-356 | receive, send, resend, delete and mark keep it exactly unless a resend does not fit |
| MessageSafety.RunKeepsThreads | src/com/zzy/ptt/db/MessageCl.java:215-356 | over every run whose resends fit, thread ids are at least 1 and shared exactly by rows of one address |
| MessageSafety.CurrentMessageFits | src/com/zzy/ptt/ui/ChatActivity.java:215-244 | a message still in the table fits |
| MessageSafety.StaleResendMixesThreads | src/com/zzy/ptt/ui/ChatActivity.java:215-244 | resending a message of a deleted session after its thread id was reused mixes two addresses |
| MessageSafety.SessionIsConversation | src/com/zzy/ptt/db/MessageCl.java:313-356 | deleting or marking by a row's thread id touches all rows of its address and no other |
| MessageSafety.SessionsAreConversations | src/com/zzy/ptt/db/MessageCl.java:183-213 | the session list has one entry per address and the counts beside the entries sum to the table size |
| MessageSafety.WhereJoins | src/com/zzy/ptt/db/MessageCl.java:94-104 | a query looks at each row by itself and keeps order and repeats |
| MessageSafety.DeletedById | src/com/zzy/ptt/db/MessageCl.java:348-351 | deleting by id takes out that one row and closes the gap |
| MessageSafety.ExchangeLaw | src/com/zzy/ptt/db/MessageCl.java:215-254 | a message sent or received is appended with all its fields, under its address's thread or a new one above all others |
| MessageSafety.ResendLaw | src/com/zzy/ptt/db/MessageCl.java:215-254 | a message added with a thread of its own keeps every field |
| MessageSafety.MarkLaw | src/com/zzy/ptt/db/MessageCl.java:306-346 | marking changes the one field of the matching rows |
| MessageTable.MessageCl.GetThreadIds | src/com/zzy/ptt/db/MessageCl.java:66-78 | the set of non-zero thread ids |
| MessageTable.MessageCl.GetThreadIdFromAddress | src/com/zzy/ptt/db/MessageCl.java:94-104 | the thread of the first row of the address, or 0 |
| MessageTable.MessageCl.AddNew | src/com/zzy/ptt/db/MessageCl.java:215-254 | the table gains the message with all its fields and its thread id, and keeps the correspondence exactly when the message fits |
| MessageTable.MessageCl.Receive | src/com/zzy/ptt/service/MessageReceiver.java:57-86 | look-up and insert as one exchange |
| MessageSafety.RunKeyed | src/com/zzy/ptt/db/MessageCl.java:215-356 | over every run row ids stay distinct and below the counter |
| MessageTable.MessageCl.DeleteMsg | src/com/zzy/ptt/db/MessageCl.java:348-351 | the rows of other ids stay, in order; with distinct ids the one row goes and the answer is yes, or nothing changes and it is no |
| MessageTable.MessageCl.DeleteSession | src/com/zzy/ptt/db/MessageCl.java:353-356 | the rows of other threads stay; true exactly when the thread had one row before, so it tells whether rows went exactly for sessions of at most one message |
| MessageSafety.TwoMessageSession | src/com/zzy/ptt/db/MessageCl.java:353-356 | a session of two messages, deleted as a whole, for which the answer is no |
| MessageTable.MessageCl.UpdateMsgReadStatus | src/com/zzy/ptt/db/MessageCl.java:313-318 | the thread's rows get the status and every other row stays; true exactly when there is one |
| MessageTable.MessageCl.GetSessionList | src/com/zzy/ptt/db/MessageCl.java:183-213 | distinct addresses, and every address of the table |
| CallLog.SavedKeepsDistinct | src/com/zzy/ptt/service/CallStateManager.java:165-244 | ids and times stay pairwise distinct whatever storage does |
| CallLog.SavedKeepsBound | src/com/zzy/ptt/service/CallStateManager.java:190-217 | at most 200 rows remain exactly unless a full table takes a row without losing one |
| CallLog.UncountedSaveOutgrows | src/com/zzy/ptt/service/CallStateManager.java:190-217 | a full table of 200 rows that takes a 201st when its count fails |
| CallLog.SavedLaw | src/com/zzy/ptt/service/CallStateManager.java:165-244 | with sound storage a save appends the entry under a new id and drops the oldest of 200, or refuses exactly entries without number, of type 3, or of a known time |
| CallLog.FailedInsertLaw | src/com/zzy/ptt/service/CallStateManager.java:190-244 | a failing insert adds nothing, and after a successful eviction costs a row |
| CallLog.EvictedMeaning | src/com/zzy/ptt/db/DBHelper.java:217-235 | deleting by the oldest row's id removes that row and no other |
| CallLog.RunIsBounded | src/com/zzy/ptt/service/CallStateManager.java:165-244 | any run with sound storage keeps at most 200 rows with distinct ids and times |
| CallLog.SaveSlides | src/com/zzy/ptt/service/CallStateManager.java:165-244 | with rising times one save appends and drops the first row of a full table |
| CallLog.LogIsSlidingWindow | src/com/zzy/ptt/service/CallStateManager.java:165-244 | while the times of accepted entries rise, whatever refused ones look like, the log is exactly the last 200 accepted entries |
| CallLog.OrderIsUnique | src/com/zzy/ptt/db/DBHelper.java:173-215 | rows told apart by time have one newest-first order |
| CallLog.PagesTile | src/com/zzy/ptt/db/DBHelper.java:126-215 | over an unchanged table with distinct times the pages loaded are the newest rows, none lost or repeated |
| CallLog.FilteredLaw | src/com/zzy/ptt/db/DBHelper.java:130-190 | a tab holds each row of its type as often as the table does, and no other; type 3 is all |
| CallLog.ListingLaw | src/com/zzy/ptt/db/DBHelper.java:173-215 | the first n rows of an answer are rows of the type, newest first, none older than one left out, and all once n suffices |
| CallLog.EqualTimesCanRepeat | src/com/zzy/ptt/db/DBHelper.java:173-215 | with equal times two queries may show a row twice and another never |
| CallLogDb.DBHelper.QueryLogCountByTime | src/com/zzy/ptt/db/DBHelper.java:267-283 | positive exactly when a row has that time |
| CallLogDb.DBHelper.SaveCallLog | src/com/zzy/ptt/service/CallStateManager.java:165-244 | the table becomes the saved one for every behaviour of storage, and keeps ids and times distinct |
| CallLogDb.DBHelper.ResetIndex | src/com/zzy/ptt/db/DBHelper.java:126-128 | the shared offset returns to 20 |
| CallLogDb.DBHelper.QueryCallLog | src/com/zzy/ptt/db/DBHelper.java:130-171 | the first 20 rows of the answer |
| CallLogDb.DBHelper.QueryCallLogAdd | src/com/zzy/ptt/db/DBHelper.java:173-215 | 20 rows from the offset, which advances by 20 |
| CallLogDb.DBHelper.LoadPages | src/com/zzy/ptt/ui/CallLogTabActivity.java:212-236 | opening a tab and loading more shows rows of its type only, newest first, none older than one not shown, 20 for each query, and all once that suffices |
| Pacing.SleepsShorterThanFrame | jni/pjsip/android_sources/pjmedia/src/pjmedia-audiodev/android_jni_dev.cpp:247-276 | when sleeps last as asked, after the first update missed time is at least -(frame+1) and every sleep is shorter than a frame |
| Pacing.EarliestIsReached | jni/pjsip/android_sources/pjmedia/src/pjmedia-audiodev/android_jni_dev.cpp:205-276 | for every frame of at least 3 ms a run of the thread from its start attains that lower bound |
| Pacing.NeverTooLate | jni/pjsip/android_sources/pjmedia/src/pjmedia-audiodev/android_jni_dev.cpp:247-263 | with rounds of at most E, missed time never exceeds the larger of a frame and twice the excess of E over it |
| Pacing.RunsConverge | jni/pjsip/android_sources/pjmedia/src/pjmedia-audiodev/android_jni_dev.cpp:252-263 | two runs over the same times halve their gap, rounded up, each round, down to at most 1 |
| Pacing.OnTimeForgets | jni/pjsip/android_sources/pjmedia/src/pjmedia-audiodev/android_jni_dev.cpp:252-263 | with on-time frames missed time is 0 exactly after as many rounds as it has binary digits |
| Pacing.WaitLaw | jni/pjsip/android_sources/pjmedia/src/pjmedia-audiodev/android_jni_dev.cpp:268-276 | a sleep makes up exactly for being more than 2 ms early |
| Pacing.NextLaw | jni/pjsip/android_sources/pjmedia/src/pjmedia-audiodev/android_jni_dev.cpp:263-263 | one measured ms more is one ms more missed; half the old lateness, cut towards zero, is kept |
| Pacing.LivedLaw | jni/pjsip/android_sources/pjmedia/src/pjmedia-audiodev/android_jni_dev.cpp:245-340 | the thread runs up to and including the first round that ends it |
| Pacing.WholeLaw | jni/pjsip/android_sources/pjmedia/src/pjmedia-audiodev/android_jni_dev.cpp:280-334 | the frames stamped are the rounds run with a whole frame and no quit flag |
| Pacing.UpdateMissed | jni/pjsip/android_sources/pjmedia/src/pjmedia-audiodev/android_jni_dev.cpp:263-276 | one update, and a sleep that makes up exactly for being more than 2 ms early |
| Pacing.RecorderCallback | jni/pjsip/android_sources/pjmedia/src/pjmedia-audiodev/android_jni_dev.cpp:188-347 | each sleep makes up exactly for the earliness of its round, the thread runs up to quit or failure, and frame i is stamped i frames on |
| Hmac.StreamingIsMac | jni/pjsip/sources/pjlib-util/src/pjlib-util/hmac_md5.c:24-85 | init, any list of updates and final give the RFC 2104 value of the joined text |
| Hmac.MacOfShortKey | jni/pjsip/sources/pjlib-util/src/pjlib-util/hmac_md5.c:44-62 | byte by byte, a key of at most 64 bytes is xor-ed with 0x36 inside and 0x5c outside, which also fill the rest |
| Hmac.MacOfEmptyKey | jni/pjsip/sources/pjlib-util/src/pjlib-util/hmac_md5.c:44-62 | the value for the empty key, with its pads written out |
| Hmac.LongKeyIsItsDigest | jni/pjsip/sources/pjlib-util/src/pjlib-util/hmac_md5.c:33-42 | a key over 64 bytes acts as its digest |
| Hmac.ZeroBytesVanish | jni/pjsip/sources/pjlib-util/src/pjlib-util/hmac_md5.c:44-56 | zero bytes appended within 64 change nothing |
| Hmac.DomainsApart | jni/pjsip/sources/pjlib-util/src/pjlib-util/hmac_md5.c:52-85 | whatever the key and the texts, the inner and the outer hash are never given the same bytes |
| Hmac.HmacContext.Init | jni/pjsip/sources/pjlib-util/src/pjlib-util/hmac_md5.c:24-64 | the in-place pads and the absorbed block are those of the RFC |
| Hmac.HmacContext.Update | jni/pjsip/sources/pjlib-util/src/pjlib-util/hmac_md5.c:66-71 | the text is appended |
| Hmac.HmacContext.Final | jni/pjsip/sources/pjlib-util/src/pjlib-util/hmac_md5.c:73-85 | the outer hash over the inner digest |
| Hmac.HmacMd5 | jni/pjsip/sources/pjlib-util/src/pjlib-util/hmac_md5.c:87-96 | the one-shot call equals the RFC value |
| IpText.CheckIPIsThePattern | src/com/zzy/ptt/util/PTTUtil.java:143-151 | the validator accepts exactly what its regular expression, look-aheads and word boundaries included, matches as a whole |
| IpText.ParseLongLaw | src/com/zzy/ptt/util/PTTUtil.java:793-801 | digits after at most one sign parse exactly while they stay within a long |
| IpText.OtherTextsAreNoLongs | src/com/zzy/ptt/util/PTTUtil.java:793-801 | any other character makes a piece unreadable |
| IpText.WrappedLaw | src/com/zzy/ptt/util/PTTUtil.java:793-801 | wrapping lands in a long with the same remainder modulo 2^64 |
| IpText.SplitLaw | src/com/zzy/ptt/util/PTTUtil.java:789-792 | splitting drops exactly the empty pieces at the end, unless there is no dot |
| IpText.TrimmedLaw | src/com/zzy/ptt/util/PTTUtil.java:789-789 | trimming takes every blank off both ends and nothing else |
| IpText.UnreadableIsZero | src/com/zzy/ptt/util/PTTUtil.java:785-802 | a missing text and every text the parser does not take give 0 |
| IpText.LongToIp | src/com/zzy/ptt/util/PTTUtil.java:771-783 | the buffer ends as the four bytes of the low 32 bits joined by dots |
| IpText.IpToLong | src/com/zzy/ptt/util/PTTUtil.java:785-802 | null, empty, a wrong number of pieces and a piece that is no long give 0; otherwise the wrapped sum |
| IpText.SumPieces | src/com/zzy/ptt/util/PTTUtil.java:793-801 | wrapping at each shift and addition gives the exact sum wrapped once |
| IpText.PrintThenParse | src/com/zzy/ptt/util/PTTUtil.java:771-802 | every long prints as an accepted address and parses back to its low 32 bits |
| IpText.PrintsAlike | src/com/zzy/ptt/util/PTTUtil.java:771-783 | two longs print alike exactly when they agree modulo 2^32 |
| IpText.ParsedAddress | src/com/zzy/ptt/util/PTTUtil.java:785-802 | every accepted address parses, into 0 to 2^32-1 |
| IpText.ParseThenPrint | src/com/zzy/ptt/util/PTTUtil.java:771-802 | every accepted address prints back without its octets' leading zeros |
| IpText.PrintsBackExactly | src/com/zzy/ptt/util/PTTUtil.java:771-802 | it prints back to itself exactly when no octet has a leading zero |
| IpText.AcceptedParses | src/com/zzy/ptt/util/PTTUtil.java:143-802 | whatever the validator accepts, the parser takes |
| IpText.ParserAgreesExactly | src/com/zzy/ptt/util/PTTUtil.java:143-802 | of the texts the parser takes, the validator accepts exactly those without outer spaces and final dot whose four pieces are one to three digits, and if three then without leading zero and at most 255 |
| IpText.DigitPiecesParse | src/com/zzy/ptt/util/PTTUtil.java:785-802 | four runs of digits that fit a long always parse, and are accepted exactly when all four are such octets |
| IpText.SpaceIsIgnored | src/com/zzy/ptt/util/PTTUtil.java:785-802 | an accepted address with blanks around it is refused by the validator and parses to the same number |
| IpText.PlusIsIgnored | src/com/zzy/ptt/util/PTTUtil.java:785-802 | so is one after a plus sign |
| IpText.TrailingDotIsIgnored | src/com/zzy/ptt/util/PTTUtil.java:785-802 | an accepted address with a dot appended is refused by the validator and parses to the same number |
| CharSets.PaintedColumn | jni/pjsip/sources/pjlib-util/include/pjlib-util/scanner_cis_bitwise.h:71-82 | writing one specification's bits leaves every other specification's members as they were |
| CharSets.StepRefines | jni/pjsip/sources/pjlib-util/src/pjlib-util/scanner_cis_bitwise.c:26-68 | one operation on the shared buffer does what it does on private sets, and is refused exactly for a creation when all 32 ids are taken |
| CharSets.RunRefines | jni/pjsip/sources/pjlib-util/include/pjlib-util/scanner_cis_bitwise.h:45-91 | the same over every run from a sound buffer |
| CharSets.SlicedIsPrivate | jni/pjsip/sources/pjlib-util/include/pjlib-util/scanner_cis_uint.h:47-78 | from an initialized buffer a run goes through exactly when it creates at most 32 specifications, and then every membership test answers as with private arrays |
| CharSets.EditedLaw | jni/pjsip/sources/pjlib-util/src/pjlib-util/scanner.c:47-112 | the membership of every character after each operation |
| CharSets.SetsStepLaw | jni/pjsip/sources/pjlib-util/src/pjlib-util/scanner.c:47-112 | each operation writes the one specification it names and no other |
| CharSets.FreeIsNext | jni/pjsip/sources/pjlib-util/src/pjlib-util/scanner_cis_bitwise.c:38-47 | ids are given out in order, and none exactly when 32 are taken |
| CharSets.BitCis.SetChar | jni/pjsip/sources/pjlib-util/include/pjlib-util/scanner_cis_bitwise.h:71-71 | SET adds the character to this specification and changes nothing else |
| CharSets.BitCis.ClearChar | jni/pjsip/sources/pjlib-util/include/pjlib-util/scanner_cis_bitwise.h:80-80 | CLR removes the character and changes nothing else |
| CharSets.BitCis.IsSet | jni/pjsip/sources/pjlib-util/include/pjlib-util/scanner_cis_bitwise.h:89-89 | ISSET answers membership |
| CharSets.BitCis.AddCis | jni/pjsip/sources/pjlib-util/src/pjlib-util/scanner.c:77-84 | the union with another specification of the same or another buffer |
| CharSets.BitCis.Invert | jni/pjsip/sources/pjlib-util/src/pjlib-util/scanner.c:102-112 | every character but 0 changes membership, and no other specification does |
| CharSets.CisBuf.Init | jni/pjsip/sources/pjlib-util/src/pjlib-util/scanner_cis_bitwise.c:32-48 | the lowest unused id, or failure with the mask unchanged |
| CharSets.CisBuf.Dup | jni/pjsip/sources/pjlib-util/src/pjlib-util/scanner_cis_bitwise.c:50-68 | a new id with the members of the existing specification |
| CharSets.PlainCis.AddCis | jni/pjsip/sources/pjlib-util/src/pjlib-util/scanner.c:77-84 | the union, on the private form |
| CharSets.PlainCis.Invert | jni/pjsip/sources/pjlib-util/src/pjlib-util/scanner.c:102-112 | the complement, character 0 excepted, on the private form |
| CharSets.PlainCis.SetChar | jni/pjsip/sources/pjlib-util/include/pjlib-util/scanner_cis_uint.h:58-58 | SET on the private form |
| CharSets.PlainCis.ClearChar | jni/pjsip/sources/pjlib-util/include/pjlib-util/scanner_cis_uint.h:67-67 | CLR on the private form |
| Capability.Select | jni/pjsip/android_sources/pjmedia/src/pjmedia-videodev/webrtc_android_capture_dev.cpp:351-399 | the loop ends on the last capability whose height is nearest the target, and on none exactly for an empty list |
| Capability.CreateStream | jni/pjsip/android_sources/pjmedia/src/pjmedia-videodev/webrtc_android_capture_dev.cpp:351-411 | the stream parameters become those of that capability, or the call fails for an empty list |
| Capability.SelectingAgain | jni/pjsip/android_sources/pjmedia/src/pjmedia-videodev/webrtc_android_capture_dev.cpp:351-411 | opening again with the parameters given picks the same capability and no other |
| Capability.DistanceLaw | jni/pjsip/android_sources/pjmedia/src/pjmedia-videodev/webrtc_android_capture_dev.cpp:376-398 | each distance is the absolute difference of its own dimension |
| Capability.TargetLaw | jni/pjsip/android_sources/pjmedia/src/pjmedia-videodev/webrtc_android_capture_dev.cpp:352-354 | a parameter block asks for its own size and the whole frames of its rate |
| Capability.RepairedIsNearest | jni/pjsip/android_sources/pjmedia/src/pjmedia-videodev/webrtc_android_capture_dev.cpp:376-398 | the nesting, with its fall-throughs keeping the old one, ends on the last capability nearest by height, width and rate |
| Capability.WrittenDiffers | jni/pjsip/android_sources/pjmedia/src/pjmedia-videodev/webrtc_android_capture_dev.cpp:376-398 | one comparison goes wrong exactly when heights tie and width or rate got worse |
| Capability.WrittenIsIntended | jni/pjsip/android_sources/pjmedia/src/pjmedia-videodev/webrtc_android_capture_dev.cpp:351-399 | over a whole list the choice is the intended one exactly when, of the capabilities tied at the nearest height, the last listed is as near in width and rate as every other |
| Capability.WorseWidthWins | jni/pjsip/android_sources/pjmedia/src/pjmedia-videodev/webrtc_android_capture_dev.cpp:376-398 | two capabilities for which it is not |

## Left out

- Screens, dialogs, notifications, sounds, audio routing, wake locks and ringtones: no effect on the modelled state.
- Native SIP, the alarm service and audio reads: their results are parameters.
- The PTT error flag, which alerts raise and dismiss: an input of each step.
- The fields of the PTT status object that no handler reads back: sequence call id, start times, waiting positions.
- CallStateManager's former state, which is only logged, and the media fields of a call.
- Status codes other than those the handlers branch on, and commands that only move the interface.
- Null elements in group lists and null group numbers, on which several handlers would fail alike.
- Interleavings inside a handler other than the key-up sleep.
- What follows a NullPointerException: the process is taken to end with it, so every later handler leaves the machine as it is. The state at that point still keeps the speaker, hangup and voice rules.
- FloorSafety.StepKeepsSpeaker: takes right responses to be the six the protocol sends and native FREE reports to carry no speaker; other native input can break it.
- Timer locks, and the gap between finding and releasing an entry in `pj_timer_fire`: the two are one step.
- TimerHeaps.TimerModule.Fire: returns the heap and does not run the callback.
- Timer expiry times, and the earliest-time query.
- Re-initialising a heap object after its pool memory is freed: heap identities are never reused.
- Thread-id and row-id overflow at 32 and 64 bits, and message columns that no query reads.
- CallLogDb.DBHelper.LoadPages: assumes the table does not change between the pages, as the offset itself does.
- Pacing works on unbounded integers; the 32-bit counters of the source overflow after weeks.
- The playback thread's loop, which only stamps frames, and the COMPATIBLE_ALSA switch, taken as on.
- MD5 itself: any hash with 16-byte digests stands for it; lengths are unbounded.
- IpText.IpToLong: digits outside ASCII, which `Long.parseLong` also takes, count as no digits.
- Range and string forms of the character-set operations, which are loops of SET and CLR, and out-of-range characters, which the C code does not check.
- CharSets.CisBuf.Init: a refused specification keeps no id here, where the source stores 32.
- Capability heights, widths and rates are unbounded integers; capture setup around the choice is not modelled.
- GroupManager.getGroupInfo, group names and member details: labels for the interface.
- Base64, CRC32, SHA-1, DNS, STUN, XML, the HTTP client and the rest of the pjlib-util scanner: independent of the cores above.
