# Model Uplink agent: a verified model

This project models the concurrent bookkeeping of the Model Uplink agent and the lifecycle
protocols around it, and proves properties of every run of those models.

How the models are built:

- Each section the program runs under a mutex (or as one channel operation) is one method of a
  class with the program's own fields. The method is proved against a function on the value of
  those fields. For the scheduler, the ledger, the rate limiter, the frame connection, the
  deadline, and the fields of the Flatpak session, the state machine steps with that same
  function; so do the operations on saved settings and on startup.
- Two classes hold references to other objects, and there the machine only runs in parallel to
  the class: it names connections and workers by number where the class has them on the heap.
  These are `StreamMux.Session` (its `WriteRaw` shares the function `Fed` with the machine) and,
  in `FlatpakSession.SessionObject`, the methods that cancel workers (`CancelAgent`, `CancelAll`).
- A machine has one event per section. The operations on saved settings hold no lock: there one
  event is a whole operation, with whatever revoked agents write to their own files between its
  steps as part of it. Operations themselves run one after another (`OverlappingStopIsUndone`
  shows why they must). An adversary picks the order: goroutines, the relay, the
  control plane, the bus, the user and failing writes are all part of the schedule. `Exec`,
  `Run` or `Play` folds a schedule; it yields `None` when a step is not possible.
- Main results speak of every reachable state, or of every continuation of one. Beside what can
  never happen they say what each operation answers and when it succeeds, in terms of the
  requests, workers, frames and files around it, and that an operation which has to wait can
  come to its end.

| file | what it models |
|---|---|
| `Scheduler.dfy` | the single-slot model scheduler with its queue and per-key cap |
| `UsageLedger.dfy`, `TrialAllowance.dfy`, `TrialChain.dfy` | admission, usage reports, drain; the trial allowance against the control plane, in one tunnel session and over many |
| `KeyWindow.dfy` | the per-key limit of sixty calls a minute |
| `FrameConn.dfy`, `Deadline.dfy`, `StreamMux.dfy` | one client stream, its deadlines, and the multiplexing of streams over the tunnel |
| `FlatpakSession.dfy`, `SessionMachine.dfy`, `Handover.dfy` | the Flatpak session supervisor, its interleavings, and the handover between two sessions |
| `Maintenance.dfy`, `Lifecycle.dfy` | stop, resume, revoke, prepare-update and finish-update on Windows |
| `Startup.dfy` | the automatic-startup transaction |
| `HelperStream.dfy` | the desktop bridge's incremental parser |
| `Slug.dfy` | mission names and slug validation |
| `Counting.dfy`, `ByteStrings.dfy`, `Wrappers.dfy` | counting entries of a map; byte strings; `Option` |

## What the proofs found

Several statements one might expect, some of them made in the program's own comments, are false of
the code. The code is modelled as it is. Each finding names the lemma that shows the failure and
the condition under which the statement does hold.

- A trial grant can be overshot, contrary to the comment at `pkg/agent/inference.go:46-50`
  (`StaleAdmissionOvershoots`). Within one session exactly one kind of admission can lead to it
  (`OvershootIffDangerous`): one that uses a fresh reply which an acknowledgement of completions
  has overtaken, and that leaves a transfer allowance; once drain has closed the door, enough
  handlers must still be inside. The agent can see all of this before it admits. Without such
  an admission no run of one tunnel session overshoots (`NoTrialOvershoot`).
- Over several sessions a grant can be overshot with no such admission: each reconnect makes a
  fresh ledger, and usage whose report failed before drain settled goes with the old one
  (`LostReportOvershoots`). All completions together are at most the grant plus what the earlier
  sessions left queued (`ChainOvershootsByWhatIsLost`), and one more session can overshoot if and
  only if that is more than the plane has left, or is not nothing and there is a transfer
  allowance to spend (`NextSessionOvershootsIff`).
- Sixty-one calls can be admitted in one minute when two calls of a key reach the limiter in
  the opposite order of their clock readings (`LateCallIsOneTooMany`). The clock is read before
  the mutex is taken. For a call at any time after an ordered run, the window is exact if and
  only if no admission lies between a minute before the call and a minute before the key's
  latest call (`WindowIsExactIff`), the refusal is right if and only if those two minutes do not
  differ in having reached sixty (`RefusalIsRightIff`), and some minute becomes overfull if and
  only if fewer than sixty admissions are still counted and the call falls among sixty in a row
  (`OverfullIff`). In any run at all, if no call is late by more than some delay, every window
  shorter than a minute by that delay holds at most sixty (`ShorterWindowHoldsSixty`).
- A session that leaves on a signal has not set `closing`, so a `Start` that arrives after its
  `close` still creates a worker, and the next session can serve the same slug at the same time
  (`SignalExitServesTwice`). In any reachable world, a session that has closed with every worker
  done, and still has the name, can come to serve a slug together with another session if and
  only if it had not agreed to close (`ServedTwiceIffNotClosing`).
- A revoked endpoint can be restarted by an update, in two ways. A revocation that its agent
  writes while prepare-update stops the service is overwritten by the stop's next save, which
  still has the endpoint as it was loaded, although every file was readable and every write and
  command succeeded (`RevocationDuringStopIsRestarted`). And a file that cannot be read is
  replaced by the settings' copy, which a revoked agent never writes
  (`UnreadableRevocationIsRestarted`). When all writes and commands succeed, with agents revoked
  at any moment, an endpoint is restarted if and only if it was waiting or the first loop of
  prepare-update found it sharing, the second loop did not find it revoked, and its agent was not
  revoked between the last save of an operation and the load of finish-update (`RestartedIff`).
  For one that was revoked before the update this comes down to readability, the settings and
  the resume list (`RevokedIsRestartedIff`). Whatever fails, a revoked endpoint is restarted only
  if the second loop had loaded it as not revoked (`RevokedIsRestartedOnlyIf`), and in no run whose
  operations write over no revocation they have not seen (`RevokedIsNeverRestarted`).
- Two explicit stops that share one loaded settings value, as in the loop of `_uninstall`, put
  the first endpoint back on the saved resume list if and only if it was waiting there
  (`SharedSettingsReviveAResume`). `stop_all` reloads the settings for every stop. Likewise an
  explicit stop by another process that succeeds during a prepare-update is undone by that
  update's next stop if and only if the update has the endpoint on its list
  (`OverlappingStopIsUndone`).

## Model

| member | source | states |
|---|---|---|
| `Scheduler.ModelScheduler.CountKey` | pkg/agent/model_policy.go:217-226 | the per-key cap: refuse at three outstanding, else count the request |
| `Scheduler.ModelScheduler.Enter` | pkg/agent/model_policy.go:165-181 | take the free slot, else join the queue of at most four, else refuse |
| `Scheduler.ModelScheduler.TakeSlot` | pkg/agent/model_policy.go:185 | a queued request takes the slot without the mutex and is still counted as waiting |
| `Scheduler.ModelScheduler.Promote` | pkg/agent/model_policy.go:186-191 | the request that took the slot becomes the published running one |
| `Scheduler.ModelScheduler.Abandon` | pkg/agent/model_policy.go:197-202 | a request that timed out or was cancelled leaves the queue count |
| `Scheduler.ModelScheduler.Release` | pkg/agent/model_policy.go:205-212 | the slot and the published model are given back together |
| `Scheduler.ModelScheduler.Forget` | pkg/agent/model_policy.go:227-233 | one outstanding request of the key less; a key at zero leaves the map |
| `Scheduler.EveryRunKeepsInvariant` | pkg/agent/model_policy.go:164-240 | in every interleaving: slot = granted + running requests, waiting = queued + granted + timed out and at most 4, each key's count = its outstanding requests and at most 3 |
| `Scheduler.OneAtATime` | pkg/agent/model_policy.go:125-127 | two requests never hold the slot together, and the published counters and model are the holder's |
| `Scheduler.NothingLeaks` | pkg/agent/model_policy.go:205-240 | with no request outstanding the scheduler is back to its empty state |
| `Scheduler.PlacesOfOneKey` | pkg/agent/model_policy.go:119-122 | at most three of at most five places belong to one key |
| `Scheduler.OneKeyNeverFillsTheQueue` | pkg/agent/model_policy.go:119-122 | while all other outstanding requests share one key, an arrived request is never refused for a full queue |
| `Scheduler.CapIsExact` | pkg/agent/model_policy.go:221-225 | the cap refuses exactly when three requests of the key are outstanding |
| `Scheduler.EntryIsExact` | pkg/agent/model_policy.go:165-181 | in any reachable state a request runs at once exactly if nobody holds the slot, is refused exactly if somebody does and four wait, and queues otherwise |
| `Scheduler.FreeSlotIsTaken` | pkg/agent/model_policy.go:185-191 | a queued request can take the slot exactly when nobody holds it, and is then the published running one |
| `UsageLedger.LocalInference.Open` | pkg/agent/inference.go:77-85 | no handler starts once closing is set |
| `UsageLedger.LocalInference.NoteTrialRejection` | pkg/agent/inference.go:111-114 | a trial rejection of the control plane is remembered |
| `UsageLedger.LocalInference.Admit` | pkg/agent/inference.go:171-202 | sync with the authorization, then refuse with a trial code, refuse at the limit, or take a slot |
| `UsageLedger.LocalInference.Release` | pkg/agent/inference.go:204-208 | the concurrency slot is given back |
| `UsageLedger.LocalInference.RecordUsage` | pkg/agent/inference.go:214-232 | usage is queued, reserved from a known trial allowance, and a reporter is started if none runs |
| `UsageLedger.LocalInference.TakeReport` | pkg/agent/inference.go:236-247 | the reporter stops on an empty queue, else takes all of it |
| `UsageLedger.LocalInference.ReportFailed` | pkg/agent/inference.go:250-258 | a failed report goes back to the queue |
| `UsageLedger.LocalInference.ReportAcknowledged` | pkg/agent/inference.go:260-271 | an acknowledged report leaves pending usage and re-syncs the allowance |
| `UsageLedger.LocalInference.StopAdmitting` | pkg/agent/drain.go:11-13 | drain first closes the door |
| `UsageLedger.UsageIsConserved` | pkg/agent/inference.go:214-273 | in every interleaving and for any answers: recorded = acknowledged + in report + queued, for requests and bytes; at most one live reporter; no queued events means nothing queued; 0 <= pending <= queued + in report; slots in use = handlers holding one |
| `UsageLedger.RunKeepsInvariant` | pkg/agent/inference.go:157-273 | the invariant behind it is kept by every run from any state that has it |
| `UsageLedger.TakeLeavesNothingQueued` | pkg/agent/inference.go:236-247 | from any reachable state, a reporter that finds something queued leaves nothing queued and carries all of recorded less acknowledged; else everything is acknowledged and it stops |
| `UsageLedger.RecordingHasAReporter` | pkg/agent/inference.go:223-231 | after every recording a reporter is live, and none is started beside one that is |
| `UsageLedger.OneReportSettlesTheBooks` | pkg/agent/inference.go:236-271 | once a taken report is acknowledged with nothing recorded in between, whatever else happens and whatever the reply, acknowledged = recorded for requests and bytes and nothing is pending |
| `UsageLedger.AcknowledgedLeavesTheRest` | pkg/agent/inference.go:260-271 | what was recorded after the report was taken stays pending and queued, and a trial's view is the plane's answer less that |
| `UsageLedger.FailedReportGoesAlong` | pkg/agent/inference.go:250-258 | after a failed report everything unacknowledged is queued, and the next recording starts a reporter that takes it along |
| `UsageLedger.EntersIffNotDraining` | pkg/agent/inference.go:77-85 | over any run, a request gets in if and only if drain has not begun |
| `UsageLedger.ReasonIsRemembered` | pkg/agent/inference.go:171-191 | a trial code the control plane gave is what every later refusal on a cached reply reports, until there is newer word |
| `UsageLedger.UpgradeAddressIsTheLatest` | pkg/agent/inference.go:176-190 | a refusal sends to the address of its own reply, or else the last one known, a 402 answer's included |
| `UsageLedger.PaidRunsAreUnmetered` | pkg/agent/inference.go:192-195 | from any reachable state without a known allowance, as long as only paid answers come, usage reserves nothing and no request is refused with a trial code |
| `UsageLedger.SettledIsFinal` | pkg/agent/drain.go:10-32 | once drain has settled, no handler or reporter moves again, and usage is acknowledged or queued, with nothing in between |
| `TrialAllowance.NoTrialOvershoot` | pkg/agent/inference.go:157-273 | in one tunnel session without a late admission, completions never exceed the allowance it began with, a known local view is the plane's allowance less pending completions, and without any overtaken reply the transfer view is exact too |
| `TrialAllowance.OnceSyncedNeverNegative` | pkg/agent/inference.go:46-50 | from the first sync on the local view is never negative again, in any continuation, and stays exact |
| `TrialAllowance.OvershootIffDangerous` | pkg/agent/inference.go:171-202 | at any point of one session without late admissions, some continuation of the next admission overshoots if and only if that admission uses a fresh reply overtaken by an acknowledgement of completions, leaves a transfer allowance, and (after closing) enough handlers are inside that can still come to serve |
| `TrialAllowance.AdmissionIsExactIffInTime` | pkg/agent/inference.go:174-183 | an admission keeps the local view exact if and only if it does not use a fresh reply that completions have overtaken |
| `TrialAllowance.StaleAdmissionOvershoots` | pkg/agent/inference.go:148-165 | a run with one granted request in which two complete, through one stale admission |
| `TrialChain.ChainOvershootsByWhatIsLost` | pkg/agent/agent.go:178 | over any number of consecutive sessions without late admissions, each with a fresh ledger and all but the last drained: all completions are at most the grant plus what the earlier sessions left queued |
| `TrialChain.NextSessionOvershootsIff` | pkg/agent/inference.go:234-273 | after settled sessions, one more can bring all completions over the grant if and only if what was left queued is more than the plane has left, or is not nothing while there is a transfer allowance |
| `TrialChain.LostReportOvershoots` | pkg/agent/drain.go:10-32 | two sessions without late admissions that complete two requests on a grant of one, the first having lost its only report |
| `KeyWindow.KeyLimiter.AllowKey` | pkg/agent/inference.go:317-333 | the pruning loop computes the pruned list, and decides by its length |
| `KeyWindow.WindowIsExact` | pkg/agent/inference.go:317-333 | for ordered times the pruned list is the full admission history of the last minute, and a call is refused iff sixty were admitted in it |
| `KeyWindow.AnyMinuteHoldsSixty` | pkg/agent/inference.go:317-333 | any closed window of one minute, wherever it starts, holds at most sixty admissions |
| `KeyWindow.LateCallIsOneTooMany` | pkg/agent/inference.go:125 | calls served out of the order of their clock readings put sixty-one admissions in one minute |
| `KeyWindow.ListAtAnyTime` | pkg/agent/inference.go:320-326 | a call at any time after an ordered run finds the history since a minute before the later of its own and the latest earlier reading |
| `KeyWindow.WindowIsExactIff` | pkg/agent/inference.go:320-326 | the pruned list is the last minute of the history if and only if no admission since a minute before the call is older than a minute before the key's latest call |
| `KeyWindow.RefusalIsRightIff` | pkg/agent/inference.go:327-332 | a call is refused exactly for sixty admissions in its minute, unless sixty were reached there but not since a minute before the key's latest call |
| `KeyWindow.OverfullIff` | pkg/agent/inference.go:317-333 | one more call at any time puts more than sixty admissions into some closed minute if and only if fewer than sixty are still counted for its key and sixty in a row lie within one minute together with it |
| `KeyWindow.ShorterWindowHoldsSixty` | pkg/agent/inference.go:317-333 | in any run at all: if no call is served later than some delay after its clock was overtaken, every closed window of a minute less that delay holds at most sixty admissions |
| `FrameConn.FrameConnection.FeedCheck` | pkg/agent/opaque.go:162-173 | drop on a failed or closed stream, fail it above 8 MiB, else accept |
| `FrameConn.FrameConnection.FeedAppend` | pkg/agent/opaque.go:175-177 | an accepted frame is queued and counted |
| `FrameConn.FrameConnection.Notify` | pkg/agent/opaque.go:178-181 | one token is left for the reader |
| `FrameConn.FrameConnection.CloseIncoming` | pkg/agent/opaque.go:184 | the stream is closed, once |
| `FrameConn.FrameConnection.Look` | pkg/agent/opaque.go:188-202 | a failure, else the next chunk, else nothing |
| `FrameConn.FrameConnection.Copy` | pkg/agent/opaque.go:221-223 | as much as fits is handed out, the rest is kept |
| `FrameConn.DeliveryIsExact` | pkg/agent/opaque.go:162-224 | delivered is a prefix of accepted, which is a prefix of offered; the byte counter is exact and at most 8 MiB; before an overflow delivered + current + buffered is what was accepted |
| `FrameConn.EndMeansEverything` | pkg/agent/opaque.go:203-213 | when Read reports the end, everything ever accepted, before or after, has been delivered |
| `FrameConn.NoLostWakeUp` | pkg/agent/opaque.go:175-219 | a parked reader with something to see always has a waking step, at most one feeder step away |
| `FrameConn.OneWakePerNotice` | pkg/agent/opaque.go:178-216 | in any run the reader is woken by a token at most once per accepted frame |
| `FrameConn.FeedAcceptsWhatFits` | pkg/agent/opaque.go:162-177 | in any reachable state a frame is accepted exactly if the stream is open and its bytes fit beside those accepted and not yet handed to the reader, and fails the stream exactly if they do not fit |
| `FrameConn.ReadHandsOut` | pkg/agent/opaque.go:193-223 | a read that returns data fills its room or leaves nothing of the piece it found |
| `FrameConn.ClosedStreamIsReadToItsEnd` | pkg/agent/opaque.go:186-224 | on a closed stream every read takes at most four steps, and a reader with room has reported the end with everything accepted delivered after one read more than the bytes and frames held, whatever else happens |
| `FrameConn.SendFrames` | pkg/agent/opaque.go:59-71 | the send loop writes the frames of the data in order until one write fails |
| `FrameConn.FramesAreTheData` | pkg/agent/opaque.go:60-70 | the frames joined are the data |
| `FrameConn.FramesAreFull` | pkg/tunnel/codec.go:18 | every frame has 1 to 32 KiB, and only the last may be shorter than 32 KiB |
| `FrameConn.ChunkedRoundTrip` | pkg/agent/opaque.go:162-224 | data cut into frames, fed and read in any interleaving with any buffer sizes, comes back as a prefix, and at the end as itself |
| `Deadline.ConnDeadline.Set` | pkg/agent/opaque.go:257-282 | the three kinds of deadline: clear, arm a timer on the current channel, or close it |
| `Deadline.ChannelsAreSafe` | pkg/agent/opaque.go:249-288 | no channel is closed twice, a live timer or running callback holds the current open channel, and every channel handed out is current or closed |
| `Deadline.SetTakesEffect` | pkg/agent/opaque.go:257-282 | right after a set the current channel is closed iff the deadline has passed |
| `Deadline.WaitingSetIsReleased` | pkg/agent/opaque.go:260-262 | a set that waits for the old callback is always released by it |
| `StreamMux.Session.StartRaw` | pkg/agent/opaque.go:49-75 | a foreign host or a used id changes nothing, else a fresh connection is registered |
| `StreamMux.Session.WriteRaw` | pkg/agent/opaque.go:107-116 | a DATA frame is fed to the connection of its id and changes no other object |
| `StreamMux.Session.EndRaw` | pkg/agent/opaque.go:118-127 | END and CANCEL close the connection of their id and keep its entry |
| `StreamMux.Session.Cleanup` | pkg/agent/opaque.go:78-87 | the serving goroutine closes its connection and removes its own entry |
| `StreamMux.Session.CancelAll` | pkg/agent/agent.go:227-234 | every registered connection is closed and forgotten |
| `StreamMux.StreamGetsItsFrames` | pkg/agent/agent.go:184-214 | a connection is fed exactly the DATA frames of its id between its REQUEST_HEAD and its first END, CANCEL or close, or a prefix once it overflowed |
| `StreamMux.ReadersGetTheirOwnFrames` | pkg/agent/opaque.go:107-224 | end to end: what the reader of a connection was handed, with any buffer sizes, is a prefix of those frames, and before an overflow the rest of them is still in the connection |
| `StreamMux.EntryLeavesByOwnCleanup` | pkg/agent/opaque.go:77-87 | an entry leaves exactly by its own connection's cleanup or the end of the session |
| `StreamMux.HeadOpensIffFree` | pkg/agent/opaque.go:49-75 | a REQUEST_HEAD opens and registers a fresh connection exactly if it is for this host and its id is free, and else changes nothing |
| `StreamMux.DataIsTakenIffItFits` | pkg/agent/opaque.go:107-116 | a DATA frame is taken by the open connection of its id exactly if it fits beside what waits there, leaving a token; else it fails and closes that connection |
| `StreamMux.ClosedConnectionIsReadToItsEnd` | pkg/agent/opaque.go:118-224 | once a connection is closed and has not failed, as many reads as it holds bytes and frames give its reader all frames meant for it, whatever relay, cleanups and other connections do |
| `FlatpakSession.SessionObject.Begin` | internal/flatpak/session_unix.go:157-163 | Start and Startup register themselves unless the session is closing |
| `FlatpakSession.SessionObject.End` | internal/flatpak/session_unix.go:164 | and leave when their body is done |
| `FlatpakSession.SessionObject.CancelAgent` | internal/flatpak/session_unix.go:184-188 | the listed worker is cancelled, not waited for |
| `FlatpakSession.SessionObject.DropAgent` | internal/flatpak/session_unix.go:188-190 | Stop forgets an agent only once its worker is done |
| `FlatpakSession.SessionObject.Replace` | internal/flatpak/session_unix.go:90-117 | a start replaces a finished worker by a fresh one, or leaves none when the launch fails |
| `FlatpakSession.SessionObject.Open` | internal/flatpak/session_unix.go:224-249 | one window at a time, none while closing |
| `FlatpakSession.SessionObject.PrepareUpdate` | internal/flatpak/session_unix.go:255-265 | the session agrees to close only for another build, with nothing pending and no window |
| `FlatpakSession.SessionObject.FinishUpdate` | internal/flatpak/session_unix.go:269-281 | shutdown is requested after agreement, and its channel closed at most once |
| `FlatpakSession.SessionObject.Idle` | internal/flatpak/session_unix.go:282-296 | finished agents are swept; idle means no window, agent or pending call, and not closing |
| `FlatpakSession.SessionObject.CancelAll` | internal/flatpak/session_unix.go:300-302 | close cancels every worker before it waits for any |
| `SessionMachine.RunKeepsInvariant` | internal/flatpak/session_unix.go:78-309 | every interleaving of calls, workers, boot and main loop keeps the session's books: unfinished workers are listed, processes have their worker, `pending` counts the calls |
| `SessionMachine.OneLiveProcessPerSlug` | internal/flatpak/session_unix.go:83-94 | no slug ever has two live processes in one session |
| `SessionMachine.PreparedStaysQuiet` | internal/flatpak/session_unix.go:252-281 | after PrepareUpdate succeeded: no Start or Startup body in progress, no new worker or window, shutdown closed at most once, for the rest of the run |
| `SessionMachine.StoppedStaysStopped` | internal/flatpak/session_unix.go:141-144 | while an endpoint stays stopped or revoked and nobody has passed the check, no process of its slug is started again |
| `SessionMachine.NoWaitIsStuck` | internal/flatpak/session_unix.go:297-305 | whatever worker Start, Stop or close waits for under the mutex has been cancelled, and it or its process always has a step to take |
| `SessionMachine.LeavesIffIdle` | internal/flatpak/session_unix.go:282-296 | the main loop leaves on its idle test exactly when the session has not agreed to close, no window is open, every worker has finished and no counted call is under way |
| `SessionMachine.BodyIffNotClosing` | internal/flatpak/session_unix.go:156-163 | Start and Startup get in exactly while the session has not agreed to close |
| `SessionMachine.AgreesIffQuiet` | internal/flatpak/session_unix.go:255-265 | PrepareUpdate agrees exactly for another build while no window is open and no counted call is under way |
| `SessionMachine.ShutsIffAgreed` | internal/flatpak/session_unix.go:269-281 | FinishUpdate is accepted exactly after that agreement, from another build, and then the main loop can leave |
| `SessionMachine.WindowIffFree` | internal/flatpak/session_unix.go:220-250 | a window is opened exactly if none is, the session is not closing and the launch works, and another can be once it exits |
| `SessionMachine.StartMeansServed` | internal/flatpak/session_unix.go:90-117 | a Start that launches leaves exactly one live process of its slug, with a listed worker that is not cancelled; a failed one leaves none |
| `SessionMachine.StopMeansGone` | internal/flatpak/session_unix.go:184-192 | when Stop returns, its slug is not listed and has no unfinished worker and no process |
| `SessionMachine.CancelsItsOwn` | internal/flatpak/session_unix.go:209-219 | Retire cancels the listed worker of its slug and no other |
| `SessionMachine.CrashedAgentComesBack` | internal/flatpak/session_unix.go:118-152 | in any reachable state the worker of a crashed agent that nobody cancelled can bring up a new process, whatever the session is doing |
| `SessionMachine.CloseCanFinish` | internal/flatpak/session_unix.go:297-305 | from any point of close, whatever the workers were doing, they can finish by themselves and close ends |
| `SessionMachine.QuietCanCome` | internal/flatpak/session_unix.go:156-206 | whenever the mutex is free there is a continuation in which all counted calls return, after which, with the window gone, the session agrees to an update |
| `Handover.WorkersBelongToTheOwner` | internal/flatpak/session_unix.go:297-309 | a session that leaves only after agreeing to close, whatever all others do, has a worker or a process only while it owns the bus name |
| `Handover.NoSlugServedTwice` | internal/flatpak/session_unix.go:357-373 | a slug is never served by two live processes of one session that leaves after agreeing to close; if such a session and any other both have live processes, it owns the name and the other had it before and has left |
| `Handover.NeverBothServe` | internal/flatpak/session_unix.go:297-309 | from any point at which the old session has had the name and the new one has not, in any continuation that binds the old one alone, they never both have live processes |
| `Handover.SuccessMeansTheOldSessionIsGone` | internal/flatpak/client.go:42-87 | when prepareUpdate succeeds, the session it saw has released the name for good, in any run at all |
| `Handover.SuccessMeansNothingIsLeft` | internal/flatpak/client.go:63-73 | and if that session left after agreeing to close, it has no worker and no process left, whatever other sessions did |
| `Handover.LookFindsTheOwner` | internal/flatpak/client.go:43-54 | there is nothing to replace exactly if nobody owns the name |
| `Handover.PrepareDecides` | internal/flatpak/client.go:56-62 | in any reachable world: success if the name is free, agreement exactly if its owner is of another build and quiet, and else the client gives up with nothing changed |
| `Handover.FinishDecides` | internal/flatpak/client.go:63-68 | FinishUpdate counts as failed exactly if its reply was lost or no agreed owner of another build took it; one that took it has to shut down |
| `Handover.PollDecides` | internal/flatpak/client.go:70-87 | a poll succeeds exactly if the session the client saw has released the name, whatever FinishUpdate reported, and gives up exactly if it has not and FinishUpdate failed |
| `Handover.NextPollSucceeds` | internal/flatpak/client.go:63-73 | once that session has released the name, whatever happens afterwards, the next poll succeeds, a lost reply included |
| `Handover.AgreedHandoverCanSucceed` | internal/flatpak/client.go:42-87 | from any reachable point with the agreement of the old session there is a continuation in which it ends its agents, releases the name and prepareUpdate succeeds, also if the reply is lost |
| `Handover.ServedTwiceIffNotClosing` | internal/flatpak/session_unix.go:297-309 | in any reachable world a session that closed with every worker done, and still has the name, can come to serve a slug together with another one if and only if it had not agreed to close |
| `Handover.LateStartIffNotClosing` | internal/flatpak/session_unix.go:418-419 | a closed, empty session can get a worker again if and only if it had not agreed to close |
| `Handover.SignalExitServesTwice` | internal/flatpak/session_unix.go:418-419 | a run in which an old session stopped by a signal and its successor both have a live process of one slug |
| `Maintenance.Profile.Mark` | cmd/modeluplink/desktop_models.go:145-155 | the durable stop marker, file first, then settings |
| `Maintenance.Profile.Save` | cmd/modeluplink/desktop_models.go:161-167 | one save of the endpoint and the settings, stopping at the first failure |
| `Maintenance.Profile.Settle` | cmd/modeluplink/desktop_models.go:168-184 | after the service stopped: save, and release model memory at most once |
| `Maintenance.Profile.StopSharing` | cmd/modeluplink/desktop_models.go:132-185 | a whole stop with any failing step |
| `Maintenance.Profile.Resume` | cmd/modeluplink/desktop.go:367-388 | the resume action with its undo after a failed start |
| `Maintenance.Profile.PrepareUpdate` | cmd/modeluplink/windows_maintenance.go:69-110 | both loops: note who is sharing, save, stop everyone, give up at the first failure |
| `Maintenance.Profile.FinishUpdate` | cmd/modeluplink/windows_maintenance.go:37-68 | resume the noted endpoints in order, skipping removed and revoked ones, then clear the list |
| `Lifecycle.StopEffect` | cmd/modeluplink/desktop_models.go:132-185 | whatever fails and whatever agents write meanwhile, files move only towards stopped, and settings change only in this endpoint and its own resume list; on success file and settings hold the same stopped copy of what was loaded, with memory pending exactly for an unconfirmed unload |
| `Lifecycle.StopSucceedsIff` | cmd/modeluplink/desktop_models.go:143-184 | explicit or for an update, on Windows or not: a stop succeeds exactly if the mark (on Windows), the service, the save and, where memory was held and its unload confirmed, the releasing save all do |
| `Lifecycle.MarkIsDurable` | cmd/modeluplink/desktop_models.go:145-157 | on Windows, once the mark is written the endpoint is stopped in its file, and with its second half in the settings, however the stop ends; elsewhere nothing is written before the service is stopped |
| `Lifecycle.ExplicitStopTakesEffectIff` | cmd/modeluplink/desktop_models.go:128-130 | an explicit Stop in any state takes effect exactly if all its steps succeed, and then the endpoint is stopped in file and settings and waits for no update |
| `Lifecycle.ResumeDecides` | cmd/modeluplink/desktop.go:367-388 | a resume succeeds exactly if the endpoint is known, not found revoked, and file, service and settings all follow; one that cannot be tried changes nothing, and a failed start puts the file back |
| `Lifecycle.RevocationIsWritten` | cmd/modeluplink/agent_revoked.go:17-30 | a revoked agent whose save works leaves its file stopped and revoked, memory pending exactly if not released, and nothing else changed |
| `Lifecycle.ExplicitStopWins` | cmd/modeluplink/desktop_models.go:134-142 | over any sequence of operations and failures, no endpoint last stopped by a successful explicit Stop waits for an update or is restarted by finish-update |
| `Lifecycle.StopSavesItsOwnList` | cmd/modeluplink/desktop_models.go:134-142 | a successful stop saves the resume list it was given, less its own endpoint if it is explicit, whatever the disk held |
| `Lifecycle.SharedSettingsReviveAResume` | cmd/modeluplink/windows_maintenance.go:86-101 | two stops on one loaded settings value put the first endpoint back on the list iff it was on it |
| `Lifecycle.OverlappingStopIsUndone` | cmd/modeluplink/windows_maintenance.go:86-101 | an explicit stop that succeeds inside a prepare-update is undone by the update's next stop iff the update has the endpoint on its list |
| `Lifecycle.SuccessMeansQuiet` | cmd/modeluplink/windows_maintenance.go:86-110 | whatever failed on the way, when prepare-update succeeds every endpoint is stopped with its model memory released, in the settings and, unless its agent was revoked since, in its file |
| `Lifecycle.PrepareSucceedsIff` | cmd/modeluplink/windows_maintenance.go:69-110 | prepare-update succeeds exactly if the list is saved, every endpoint is loaded and stopped with its memory released, and runtime and interface stop |
| `Lifecycle.FinishOutcome` | cmd/modeluplink/windows_maintenance.go:37-68 | a finish-update that succeeds has restarted every listed known endpoint or found it revoked, with matching settings and a cleared list; one that does not had a failing step or missing file and keeps settings and list |
| `Lifecycle.FailedStartIsUndone` | cmd/modeluplink/windows_maintenance.go:55-63 | an endpoint whose service cannot be installed is put back to stopped and stays on the list |
| `Lifecycle.RestartedIff` | cmd/modeluplink/windows_maintenance.go:37-110 | with all writes and commands succeeding and agents revoked at any moment, an update restarts exactly the endpoints that were waiting or that the first loop found sharing, unless the second loop found them revoked or they were revoked after the last save and before finish-update loaded them |
| `Lifecycle.RevokedIsRestartedIff` | cmd/modeluplink/windows_maintenance.go:70-94 | the same for an endpoint whose file says revoked when the update starts, in terms of the files each loop can read, the settings and the resume list |
| `Lifecycle.RevokedIsRestartedOnlyIf` | cmd/modeluplink/windows_maintenance.go:70-94 | whatever fails and whenever agents are revoked: a restarted endpoint was waiting or found sharing, and if it had been revoked when finish-update loaded it, the second loop had loaded it as not revoked |
| `Lifecycle.RevokedIsNeverRestarted` | cmd/modeluplink/windows_maintenance.go:52-54 | over any sequence of operations and failures in which no operation writes over a revocation it has not seen, finish-update restarts no endpoint that was revoked when it loaded it |
| `Lifecycle.UnreadableRevocationIsRestarted` | cmd/modeluplink/windows_maintenance.go:75-80 | a profile of one endpoint whose unreadable revocation is lost |
| `Lifecycle.RevocationDuringStopIsRestarted` | cmd/modeluplink/desktop_models.go:145-168 | a profile of one endpoint, readable and without failures, whose revocation is written between a stop's load and its save, and is lost |
| `Lifecycle.PrepareThenFinishRestores` | cmd/modeluplink/windows_maintenance.go:37-110 | prepare then finish, without failures, restores exactly the set that was sharing or already waiting, except for endpoints revoked meanwhile |
| `Startup.Add` | internal/service/startup_unix.go:68-75 | a listed name is merged in place by OR, a new one appended |
| `Startup.StartupTargets` | internal/service/startup_unix.go:77-110 | the loop over the endpoints and the runtime builds the merged list or fails |
| `Startup.ListedIffUsable` | internal/service/startup_unix.go:57-102 | the list fails exactly when some candidate cannot be used |
| `Startup.TargetsAreMerged` | internal/service/startup_unix.go:57-103 | names are distinct, exactly the services with a regular file are listed, and a target is stopped iff some candidate of its name is stopped or revoked |
| `Startup.ServiceManager.SetServiceStartup` | internal/service/startup_unix.go:132-150 | one command, which may change the state even when it fails |
| `Startup.ServiceManager.UpdateStartup` | internal/service/startup_unix.go:115-130 | the update loop with its rollback loop |
| `Startup.StoppedIsNeverEnabled` | internal/service/startup_unix.go:115-130 | no stopped target is ever sent an enable, rollback included, whatever fails |
| `Startup.OffIsNeverEnabled` | internal/service/startup_unix.go:57-130 | a stopped or revoked endpoint whose service has a regular file is never sent an enable, whatever else is listed and whatever fails |
| `Startup.StartupIsATransaction` | internal/service/startup_unix.go:115-130 | success sets every target to `enabled && !stopped`; a failure leaves later targets untouched and, if all rollbacks succeed, the others at `previous && !stopped` |
| `Startup.UpdateConversation` | internal/service/startup_unix.go:115-130 | the update succeeds if and only if every command does; the commands sent are exactly those up to the first failure and then those that undo them, in order, and as many errors are reported as failed |
| `HelperStream.HelperParser.Append` | macos/Sources/ModelUplink/Bridge.swift:72-91 | the loop takes every complete line off the buffer, or throws |
| `HelperStream.Request` | macos/Sources/ModelUplink/Bridge.swift:150-162 | reading pieces until the end of the output and then finishing gives the reply and all updates exactly when the helper exited with status 0 and the stream was accepted, else an error |
| `HelperStream.CutsAgree` | macos/Sources/ModelUplink/Bridge.swift:69-97 | two cuts of the same bytes are accepted alike, with the same reply and updates |
| `HelperStream.TranscriptIsAccepted` | macos/Sources/ModelUplink/Bridge.swift:69-97 | a transcript of short lines, blank or progress, ended by one reply, is accepted however it is cut, with exactly its reply and updates |
| `HelperStream.AcceptedIffTranscript` | macos/Sources/ModelUplink/Bridge.swift:69-97 | nothing else is accepted |
| `HelperStream.UpdatesAreImmediate` | macos/Sources/ModelUplink/Bridge.swift:72-91 | while no reply has come, what was read has given exactly the updates of its complete lines, and the parser holds the rest |
| `Slug.NormalizeMissionName` | pkg/naming/naming.go:99-118 | the loop computes the words of the lower-cased text joined by hyphens, cut to 48, with no hyphen left at the cut |
| `Slug.WordsAreTheRuns` | pkg/naming/naming.go:101-115 | the words are exactly the maximal runs of letters and digits, in order |
| `Slug.NormalKeepsWhatFits` | pkg/naming/naming.go:112-117 | the slug is all of the joined words if they fit into 48 characters, and else their first 48, or 47 where the cut falls behind a hyphen |
| `Slug.TrimmingIsImmaterial` | pkg/naming/naming.go:100 | trimming the typed text first does not change its words |
| `Slug.NormalIsInNormalForm` | pkg/naming/naming.go:99-118 | every result has at most 48 of [a-z0-9-] with no leading, trailing or double hyphen |
| `Slug.FixedIffInNormalForm` | pkg/naming/naming.go:99-118 | a text is left alone exactly when it is in that form |
| `Slug.NormalIsIdempotent` | pkg/naming/naming.go:97-118 | normalising twice is normalising once |
| `Slug.ValidIffNormal` | pkg/security/slug.go:9-30 | the validator accepts exactly the normal forms of three or more characters that are not reserved, calls reserved exactly the reserved ones among them, and double-hyphened exactly what only lacks single hyphens |
| `Slug.NormalisedVerdict` | pkg/security/slug.go:19-30 | a normalised name is refused only for being too short or reserved |
| `Slug.ValidIsFixed` | pkg/security/slug.go:19-30 | a valid slug is its own normal form |

## Left out

- Integer widths: counters and byte totals are unbounded; 64-bit overflow is not modelled.
- Real time: timeouts, tickers and sleeps are steps that may happen at any moment; the sliding window and the deadlines use the times or the verdict "future or past" they are given.
- Liveness and fairness: the models say what can happen, that an end can always be reached, and what any run with enough steps of one party reaches, not that those steps are taken.
- The scheduler's published activity file, its two-second monitor and its `UpdatedAt` time.
- Request handling before admission: CORS, routes, model checks, header filtering and proxying; a handler may be authorized, rejected or depart at any point before it is admitted.
- Authorization caching and expiry: the ledger takes any authorization; the trial allowance takes a fresh one or one that was issued before in the session, however long ago. A handler is authorized at most twice, as in the source.
- The transfer allowance is kept in the books but no bound is claimed for it, because a response may be larger than what is left.
- FrameConn: one reader and one feeder per stream, as the program has them; an empty DATA frame gives an empty read, so no progress is claimed for empty frames. A read step looks at the close channel, the token and the deadline in any order.
- Write deadlines and the socket side of `Write`: a write sends the prefix of its frames that the tunnel accepts.
- StreamMux: a whole `feed` is one step there (its own interleavings are those of FrameConn), a read that finds nothing is no step, and TLS and HTTP serving are the steps of the goroutine that ends in the cleanup. A malformed head or an unexpected frame type ends the session.
- The boot goroutine's own calls of Start are ordinary calls, and it may finish before or after them.
- Handover: D-Bus transport, error names and the prompt for consent; a lost reply of FinishUpdate is a choice of the schedule, and a client may time out at any moment. A session that leaves by a signal, by going idle or by a failure is not protected itself and is covered by ServedTwiceIffNotClosing; it does not weaken the theorems about any other session.
- TrialChain: a drain that times out lets the next session begin while handlers of the last one still run; sessions of a chain are taken to drain on the settled path, and the plane to change only by their reports.
- Lifecycle: operations that overlap each other. They take no lock, so each is one event; only what revoked agents write may fall between its steps.
- Saving a file: it succeeds whole or leaves the old content.
- Lifecycle: `desktopShareModels`, the rest of `_uninstall`, and deletion of endpoints; the settings' map and the endpoint files are taken to be keyed by their own slug.
- Startup: the final sort of the targets, which no theorem depends on, and the text of commands and errors; a slug that does not validate and a saved endpoint of another identity count as Broken.
- HelperStream: decoding one JSON line is a parameter; errors carry no reason, and updates handed on before a later error are not compared.
- Slug: lower-casing and white space are parameters that fix the slug alphabet.
