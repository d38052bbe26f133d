# Verification of the EV charging lot monitor

This project models the parts of the EV charging lot monitor whose correctness depends on more than one
function body, and proves properties of them: the asynchronous timers, the base64 encoder for images, the
ODBC connection and the manager that reconnects it, the text of the INSERT statements, and the callback
chains of the two HTTP sessions. `dafny verify dfyconfig.toml` checks everything.

Each stateful part comes twice. A `...Protocol` module holds the state machine over values, on which the
theorems about whole runs are proved. A `...Object` module holds the class as the program has it, with
fields that its methods update; every method is proved to be one step of that state machine, so the theorems
apply to the class. `HttpServer`, `HttpClient` and `Base64Stream` hold both in one file.

## The timers

`Timer` keeps one flag beside Asio's `deadline_timer`. A handler clears the flag before it looks at its
completion code, so the handler of an aborted wait clears it as well, and outside calls may come between that
store and the callback. `TimerProtocol` has the events start, stop, clock tick, expiry, failure, and the two
halves of a handler; a run is any sequence of them that is possible. Assumed of Asio: re-arming and cancelling
abort exactly the waits still live; an expired wait keeps its success code; each settled wait is delivered
once, in any order, and never while another handler is on the strand; calls on one timer are serialised.
A deadline is the clock at the start plus the seconds given, of either sign; the clock never goes back.

What holds on every run is one-sided: a set flag means that the newest wait is undelivered and unaborted. The
converse fails after start, stop, start, delivery of the first wait (`FlagCanLie`). It holds on disciplined
runs, where nothing is accepted while a wait from before the last stop is undelivered, and the discipline is
exactly what is needed (`FlagIsExact`, `DisciplineIsExact`). A stop silences the current wait exactly when it
had not expired yet (`StopSilencesUnlessExpired`).

The debounce and the periodic timers are runs with one period. What each guarantee needs differs. A wait can fail
with an error other than an abort, which clears the flag early and calls nothing; and a filter can be stopped.

- That first offers alone pass, and that delivered payloads keep the order of the offers, needs that the timer is
  not stopped, and nothing of its waits (`FirstOffersAreExact`, `OrderIsExact`).
- That accepted snapshots are a period apart needs that it is neither stopped nor failing (`SpacingIsExact`). It
  still holds wherever a filter is undisturbed (`SpacedWhereUndisturbed`), and in any span each disturbance adds
  one acceptance at most to the rate (`RateInAnyRun`).
- That snapshots which are delivered were accepted a period apart needs nothing (`CallsHoldBack`,
  `CalledRateIsBounded`), and so the n-th timeout of a periodic timer is never early (`DriftBelow`).
- That a periodic timer goes on needs that its waits do not fail (`ChainSurvivalIsExact`); the bound on how late
  its timeouts are is stated for such runs.

The callbacks of the two periodic timers are EvtTimer's own timeout methods (`EvtTimer.EndHandler`), and every run
of the five timers that comes about through EvtTimer's methods is carried out by the class (`RunOfClass`).

## The encoder

`Base64` defines the encoding by groups of three bytes and the decoding, as in section 4 of RFC 4648.
`Base64Stream` is the program's form: Boost's `transform_width` as an iterator with a byte buffer, a count of
remaining bits and zero fill at the end, followed by the program's own padding. A byte is a number below 256.

## The database

The ODBC driver answers every call as it likes: its answers are an arbitrary function of the number of calls
made. It keeps the live handles with their parents and notes every misuse: a handle that is not live or of the
wrong kind, one freed twice, one freed before its children, a connection freed while linked; and a call out of
sequence, such as a connection allocated before the version is set, a statement on a connection that is not
linked, or a fetch from one not executed. It counts calls given the null handle by themselves, because the
program makes them: after every failed call `check_error` asks for a diagnosis of the handle, which is null when
an environment or a statement was refused. That happens once for each such refusal and at no other time
(`NullHandleExactly`). Assumed: a failed allocation yields a null handle and a successful one a handle never
used before; frees in order succeed; a statement takes effect if and only if its execution reports success; a
result set is finite; a count query has one row and tells the number of rows, or fails where that does not fit
32 bits.

The database reads a statement from its text alone (`SqlDatabase`): the verb, the table's name, the column names
and the values, each value going to the column named at its place. It does so by MariaDB's rules for string
literals: a doubled quote stands for one quote, a backslash takes the next character with it, except before `%`
and `_` where it stays. A field comes back unchanged exactly when it has no quote and has backslashes only
before those two characters (`Plain`). Fields with no quote and no backslash are a special case
(`CleanIsPlain`).

Two things in the code are easily missed. The last inserted id is 0 rather than -1 when the fetch fails or
finds no row, and it accepts a fetch with a warning where the count does not. And connecting anew while the
recovery flag is set leaves status and recovery flag both true if it succeeds (`BothFlagsCanBeTrue` is such a
run); this is the only way to get there (`OnlyConnectConfuses`), and a caller avoids it by connecting only
while the recovery flag is clear (`ConnectIsSafeExactly`, `CarefulConnectsKeepFlagsApart`).

## The HTTP sessions

Every completion code is chosen by the environment. A comment at central.h:112 says that a shutdown error for
a socket no longer connected is not reported; the code hands it to the callback all the same, and the model
follows the code. Central's handlers decide by that code alone, so such an exchange is logged as a failure,
and a request refused with a status other than 200 is logged as sent. `LogIsTrueWhen` says exactly when the
log is right, and two runs show both errors. Runs of one client session may overlap; each completion belongs to
one of them. The client's response is one message for all runs and is emptied by none, against what camera.h:39-40
says of messages to be read into; `ResponseEmptyExactly` says when a read starts on an empty one. A read that
fails is taken to leave the message as it was.

## Model

| member | source | states |
|---|---|---|
| TimerProtocol.InvAfter | timer.h:21-80 | the invariant over waits, deliveries and callbacks holds after every run from a state that has it, under every interleaving of start, stop, expiry, failure and out-of-order delivery |
| TimerProtocol.InvStart | timer.h:21-42 | a start keeps the invariant: the wait it arms becomes the only live one |
| TimerProtocol.InvStop | timer.h:73-80 | a stop keeps the invariant: the live wait, if any, becomes an aborted one that is still to be delivered |
| TimerProtocol.InvDeliver | timer.h:28-29 | the store that clears the flag keeps the invariant, whichever settled wait is delivered |
| TimerProtocol.CallsLogged | timer.h:30-40 | only the second half of a handler can run a callback, and only on success, with the payload of the wait delivered |
| TimerProtocol.MarkLogged | timer.h:73-80 | only a stop made on a set flag is an effective stop |
| TimerRuns.FlagIsOneSided | timer.h:21-80 | in every reachable state at most one wait is live, and a set flag means that the newest accepted wait is undelivered and unaborted |
| TimerRuns.Accounting | timer.h:23-41 | accepted starts are the successful, aborted and failed deliveries and the undelivered waits together, and callbacks are the successful deliveries but one still on the strand |
| TimerRuns.CallbackContract | timer.h:47-65 | a callback runs at most once, with the payload of its own start, not before the deadline, and never for a wait delivered as aborted or failed |
| TimerErrors.ErrorsAreLogged | timer.h:34-39 | in every run an error is logged for each delivery that failed, once its handler has ended, and for no other |
| TimerErrors.AbortsAreNotErrors | timer.h:34 | where no wait fails, no error is logged, whatever is stopped |
| TimerErrors.OnlyStopsAbort | timer.h:26 | where nothing is stopped, no wait is aborted, undelivered or delivered, whatever fails |
| TimerRuns.StopSilencesUnlessExpired | timer.h:73-80 | a stop on a set flag leaves no live wait, and the current wait can still run its callback in some continuation if and only if it had expired before the stop |
| TimerRuns.ForeverSilenced | timer.h:29-33 | a wait that settled without success has no callback in any continuation, whatever is started later |
| TimerRuns.FlagIsExact | timer.h:68-71 | on disciplined runs the flag is set if and only if a start accepted since the last effective stop is undelivered |
| TimerRuns.FlagCanLie | timer.h:29 | start, stop, start and the delivery of the aborted wait leave the flag clear while the timer is armed |
| TimerRuns.DisciplineIsExact | timer.h:23-29 | after a start on a clear flag, the flag stays exact in all disciplined continuations if and only if no wait from before the last stop was undelivered at that start |
| TimerObject.DeadlineTimer.ExpiresFromNow | timer.h:26 | re-arming aborts the live waits and sets the expiry |
| TimerObject.DeadlineTimer.AsyncWait | timer.h:28 | a wait is queued under the next number, with the expiry, payload and callback given |
| TimerObject.Timer.constructor | timer.h:15-19 | a new timer is in the initial state: clear flag, empty queue |
| TimerObject.Timer.Start | timer.h:44-66 | a start is the start step: it arms one wait on a clear flag and changes nothing on a set one |
| TimerObject.Timer.Stop | timer.h:73-80 | a stop is the stop step: on a set flag it aborts the live waits and clears the flag, else it changes nothing |
| TimerObject.Timer.IsRunning | timer.h:68-71 | the flag |
| TimerObject.Timer.BeginHandler | timer.h:28-29 | the first half of a handler takes the wait off the queue and clears the flag |
| TimerObject.Timer.EndHandler | timer.h:30-40 | the second half runs the callback on success, which may start the timer again, and logs an error other than an abort |
| TimerObject.Timer.Drive | timer.h:12-80 | every run of the protocol can be carried out on the object and ends in the same state |
| TimerRhythm.RhythmAfter | timer.h:21-66 | on runs with one period, no stop and no failed wait there is never a second undelivered wait, and acceptances and calls stay in step |
| TimerGaps.GapReachesDeadline | timer.h:21-80 | in every run, where nothing between two acceptances stopped the timer and only the success of the first was delivered there, the second comes no earlier than the first's deadline |
| TimerOrder.OrderAfter | timer.h:44-66 | on runs with no stop, whatever fails, whatever the periods: a wait is undelivered exactly while the flag is set, callbacks run in the order of acceptance, and an offer passes if and only if it is the first since a handler cleared the flag |
| TimerRate.CallsHoldBack | timer.h:21-80 | in every run, with stops, failures and any order of delivery: every start accepted after one that was called came no earlier than the deadline of that one |
| TimerRate.CalledRateIsBounded | timer.cpp:69-82 | in every run with one positive period, at most T / period + 1 of the snapshots that were delivered were accepted within any span T |
| TimerDisturbances.RateInAnyRun | timer.cpp:69-82 | in every run with one positive period, at most T / period + 1 starts are accepted within any span T, and one more for each stop, failed, aborted or stale delivery in it |
| FilterTimer.FirstOffersPass | timer.cpp:69-77 | in every run without a stop, an offer is accepted if and only if it is the first since a handler last cleared the flag |
| FilterTimer.FirstOffersAreExact | timer.cpp:69-82 | that holds in all runs if and only if there are no stops, whether or not waits fail |
| FilterTimer.SnapshotsAreSpaced | timer.cpp:69-77 | in every run with no stop and no failed wait, snapshots that are n acceptances apart are at least n periods apart |
| FilterTimer.SpacedWhereUndisturbed | timer.cpp:69-82 | with stops and failures elsewhere in the run, two acceptances are at least a period apart when between them no stop took effect and only the first was delivered, with success |
| FilterTimer.RateIsBounded | timer.cpp:96-104 | in every run with no stop and no failed wait, at most T / period + 1 snapshots are accepted within any span T, for a positive period |
| FilterTimer.DeliveredInOrder | timer.cpp:63-77 | in every run without a stop, the delivered payloads are an in-order subsequence of those offered |
| FilterTimer.DeliveredFirst | timer.cpp:63-77 | when no wait fails either, they are a prefix of the accepted ones, with at most two outstanding |
| FilterTimer.StopLosesOrder | timer.cpp:79-82 | a run with one stop in which the second snapshot offered is delivered before the first |
| FilterTimer.OrderIsExact | timer.cpp:69-82 | for a positive period, deliveries are in order in all runs if and only if there are no stops, whether or not waits fail |
| FilterTimer.SpacingIsExact | timer.cpp:69-82 | for a positive period, the spacing holds in all runs if and only if there is neither a stop nor a failed wait |
| FilterTimer.StopBreaksSpacing | timer.cpp:79-82 | start, stop, start accepts two snapshots at the same time |
| FilterTimer.FailureBreaksSpacing | timer.h:53-63 | start, failure, its delivery, start accepts two snapshots at the same time |
| PeriodicTimer.ChainNeverDies | timer.cpp:35-59 | in every run with no stop and no failed wait, a started self-restarting timer has exactly one undelivered wait or a handler in mid-execution, even with extra starts between the store to the flag and the restart |
| PeriodicTimer.ChainSurvivalIsExact | timer.cpp:35-59 | the chain goes on in all runs if and only if no wait can fail |
| PeriodicTimer.FailureEndsChain | timer.h:29-39 | when the wait of any periodic run fails, nothing is accepted until a start from outside, whatever expires, is delivered or returns meanwhile; once delivered, the flag is clear and no wait is left |
| PeriodicTimer.FailedRun | timer.h:29-39 | start, failure, delivery and return: nothing is pending and no handler is on the strand |
| PeriodicTimer.NextTimeoutPossible | timer.cpp:48-59 | from every state that a started timer reaches with no stop and no failed wait, the next timeout can be brought about |
| PeriodicTimer.DriftBelow | timer.cpp:35-46 | in every run with one period, with stops and failures too, the n-th timeout, counted from 0, comes no earlier than n + 1 periods after the first start |
| PeriodicTimer.DriftAbove | timer.cpp:35-46 | with no stop and no failed wait, and every call at most L after its deadline, the n-th timeout comes no later than n + 1 times period + L after the first start |
| EvtTimerProtocol.TimersDoNotInterfere | timer.cpp:26-142 | a sequence of events is a run of the five timers if and only if each timer's part is a run of that timer alone and handlers do not overlap; each timer ends where its own part takes it |
| EvtTimerProtocol.SelfRestartingTimersStayAlive | timer.cpp:35-59 | whatever is done to the filters, the two periodic timers stay alive while their own waits succeed |
| EvtTimerProtocol.FilterKeepsItsRate | timer.cpp:91-114 | a filter that is not itself stopped and whose own waits do not fail keeps its rate, for a positive period, whatever is done to the other four timers |
| EvtTimerProtocol.FilterRateInAnyRun | timer.cpp:69-82 | in every system run through EvtTimer, a filter keeps its rate but for one acceptance for each disturbance of its own in the span |
| EvtTimerProtocol.FilterDeliversInOrder | timer.cpp:63-82 | a filter that is not itself stopped delivers in order, whatever fails and whatever is done to the other timers |
| EvtTimerProtocol.FilterSpacesWhereUndisturbed | timer.cpp:69-82 | in system runs with stops and failures, a filter spaces two snapshots wherever it is itself undisturbed |
| EvtTimerProtocol.CallbacksInTheSystem | timer.cpp:26-142 | in system runs, too, each callback runs at most once, with its own payload, not before its deadline, and never for an aborted or failed wait |
| EvtTimerProtocol.OwnCallbacks | timer.cpp:42-59 | in every run through EvtTimer each wait of a timer carries the callback EvtTimer gave it, and each deadline is one period after its acceptance |
| EvtTimerProtocol.ConfiguredPeriods | timer.cpp:42-59 | in every run through EvtTimer each acceptance of the device-status timer, the heartbeat and the filters is due after the period configured for it and no other |
| EvtTimerProtocol.TimeoutsAreNotEarly | timer.cpp:35-59 | in every run through EvtTimer the n-th timeout of the device-status timer and of the heartbeat comes no earlier than n + 1 of its own configured periods after its first start |
| EvtTimerProtocol.TimeoutsAreNotLate | timer.cpp:35-59 | when its own waits do not fail and every call is at most L late, it comes no later than n + 1 times that period + L |
| EvtTimerProtocol.HandlerEnd | timer.cpp:35-59 | the end of a handler is its return, followed on the two periodic timers after a success by a start as EvtTimer makes it |
| EvtTimerObject.EvtTimer.FnTimerInitialization | timer.cpp:26-33 | the five timers are new, share no object, and are all in the initial state |
| EvtTimerObject.EvtTimer.StartTimer | timer.cpp:42-46 | a start of one timer is one event of the system at that timer, and leaves the other four alone |
| EvtTimerObject.EvtTimer.FnStartDeviceStatusUpdateTimer | timer.cpp:42-46 | it starts the device-status timer, and no other, with the configured device-status period, which its restarts will use too |
| EvtTimerObject.EvtTimer.OnDeviceStatusUpdateTimerTimeout | timer.cpp:35-40 | the timeout starts the same timer again |
| EvtTimerObject.EvtTimer.FnStartHeartbeatCentralTimer | timer.cpp:55-59 | it starts the heartbeat timer, and no other, with the configured heartbeat period, which its restarts will use too |
| EvtTimerObject.EvtTimer.OnHeartbeatCentralTimerTimeout | timer.cpp:48-53 | the timeout starts the same timer again |
| EvtTimerObject.EvtTimer.EndHandler | timer.cpp:35-59 | the end of a handler at one timer, its callback being that timer's timeout method, is the finish event of the system at that timer |
| EvtTimerObject.EveryTimeoutIsTheMethod | timer.cpp:35-59 | in every run through the class, whatever handler is on the strand meets what EndHandler asks for |
| EvtTimerObject.EvtTimer.BeginHandler | timer.h:28-29 | on a free strand the first half of a handler at one timer is the delivery event of the system at that timer |
| EvtTimerObject.EvtTimer.PassTime | timer.h:26 | time passes for the five timers at once |
| EvtTimerObject.EvtTimer.Drive | timer.cpp:26-142 | every run of the system that comes about through the class's methods can be carried out on the object and ends in the same state |
| EvtTimerObject.RunOfClass | timer.cpp:26-142 | so can every such run from the beginning, on a new object |
| EvtTimerObject.EvtTimer.FnStartFirstParkingLotFilterTimer | timer.cpp:69-77 | it offers a copy of the lot to the first filter only, with the configured filter period and a callback that starts nothing |
| EvtTimerObject.EvtTimer.FnStopFirstParkingLotFilterTimer | timer.cpp:79-82 | it stops the first filter only |
| EvtTimerObject.EvtTimer.FnIsFirstParkingLotFilterTimerRunning | timer.cpp:84-87 | the flag of the first filter |
| EvtTimerObject.EvtTimer.FnStartSecondParkingLotFilterTimer | timer.cpp:96-104 | it offers a copy of the lot to the second filter only, with the configured filter period and a callback that starts nothing |
| EvtTimerObject.EvtTimer.FnStopSecondParkingLotFilterTimer | timer.cpp:106-109 | it stops the second filter only |
| EvtTimerObject.EvtTimer.FnIsSecondParkingLotFilterTimerRunning | timer.cpp:111-114 | the flag of the second filter |
| EvtTimerObject.EvtTimer.FnStartThirdParkingLotFilterTimer | timer.cpp:124-132 | it offers a copy of the lot to the third filter only, with the configured filter period and a callback that starts nothing |
| EvtTimerObject.EvtTimer.FnStopThirdParkingLotFilterTimer | timer.cpp:134-137 | it stops the third filter only |
| EvtTimerObject.EvtTimer.FnIsThirdParkingLotFilterTimerRunning | timer.cpp:139-142 | the flag of the third filter |
| Base64.SymbolsAreStandard | common.cpp:145 | the symbol of a sextet is its entry in the standard alphabet |
| Base64.EncodedShape | common.cpp:144-152 | the output has 4 * ceil(n / 3) symbols, and '=' stands exactly at the last (3 - n % 3) % 3 places |
| Base64.PaddingFillsTheGroup | common.cpp:151 | the padding count is the number of sextets missing to whole groups |
| Base64.EncodeConcat | common.cpp:144-154 | encoding distributes over concatenation when the first part has whole groups |
| Base64.DecodeEncode | common.cpp:144-154 | decoding the encoding of any bytes gives them back |
| Base64.EncodeDecode | common.cpp:144-154 | whatever decodes is the encoding of what it decodes to, so no other text stands for the same bytes |
| Base64.EncodeInverts | common.cpp:144-154 | a text is the encoding of the bytes if and only if it decodes to them |
| Base64.StandardVectors | common.cpp:144-154 | vectors of section 10 of RFC 4648 |
| Base64Stream.TransformWidth.Fill | common.cpp:145-148 | a sextet is the bits left over and then the high bits of the next byte, or zeros after the last |
| Base64Stream.WrittenStep | common.cpp:148 | one more sextet keeps the text equal to the encoding of the whole groups read and the sextets of the group begun |
| Base64Stream.EncodeBuffer | common.cpp:144-154 | the streaming regrouping and the program's padding give exactly the three-byte-group encoding, for every buffer |
| Base64Stream.PaddingWritten | common.cpp:151-152 | the characters written after the loop are those the last group lacks |
| Base64Stream.FnConvertImageToBase64String | common.cpp:116-155 | the text decodes to the image's bytes; it is empty if and only if the file could not be opened or read, or is empty |
| OdbcProtocol.ConnectExactly | database.h:24-63 | connecting succeeds if and only if all five driver calls do, and then, and only then, the connection is linked to the database, with the version and the timeout set; after any early exit the handles built so far, and no others, are live and held; the null handle is used once if the environment was refused, else never |
| OdbcProtocol.IsConnectedExactly | database.h:88-103 | the answer is yes if and only if the object is connected, the driver can be asked, and it says that the connection is not dead; asking changes nothing but the number of calls made |
| OdbcProtocol.DisconnectReleasesAll | database.h:65-86 | disconnecting frees every handle, children first, with no misuse |
| OdbcProtocol.ExecuteExactly | database.h:105-133 | a statement takes effect and true is returned if and only if the object is connected and allocation and execution pass; on every path the statement handle is given back, and the null handle used only after a refused statement |
| OdbcProtocol.LastIdExactly | database.h:135-177 | when the last id is the driver's number, 0 or -1, for all answers |
| OdbcProtocol.LastIdKeeps | database.h:135-177 | every exit gives the statement handle back and leaves the tables alone |
| OdbcProtocol.CountExactly | database.h:179-217 | the count is the number of rows if and only if connected, all four calls pass, the fetch without a warning, and it fits 32 bits; else -1 |
| OdbcProtocol.CountKeeps | database.h:179-217 | every exit gives the statement handle back and leaves the tables alone |
| OdbcProtocol.SelectKeeps | database.h:219-275 | every exit, also from the nested loops, gives the statement handle back |
| OdbcProtocol.SelectExactly | database.h:219-275 | whatever text is given, a select gives one row for each leading fetch that is a plain success, cell by cell the driver's text or empty; all rows of the result if and only if every fetch is one; none unless connected and the three calls before pass |
| OdbcProtocol.NoLeaksNoDoubleFrees | database.h:14-275 | over any run of calls and any driver answers the live handles are exactly the non-null fields, none is a statement between calls, none is freed twice, too early, used after its end or out of sequence, the object is connected if and only if its connection is linked, and destruction leaves nothing live |
| OdbcProtocol.NullHandleExactly | database.h:283-304 | over any run the driver is handed the null handle exactly once for each environment or statement it refused |
| OdbcObject.OdbcDatabase.constructor | database.h:17 | a new object holds no handle and is not connected |
| OdbcObject.OdbcDatabase.CheckError | database.h:283-304 | true if and only if the call succeeded, with or without a warning; else the driver is asked about the handle |
| OdbcObject.OdbcDatabase.Connect | database.h:24-63 | connecting is the connect step, call by call with its early exits |
| OdbcObject.OdbcDatabase.Disconnect | database.h:65-86 | disconnecting, also by destruction, is the disconnect step |
| OdbcObject.OdbcDatabase.IsConnected | database.h:88-103 | the is-connected step |
| OdbcObject.OdbcDatabase.ExecuteNonQuery | database.h:105-133 | the execute step on the statement that the text is understood as |
| OdbcObject.OdbcDatabase.GetLastInsertedId | database.h:135-177 | the last-id step |
| OdbcObject.OdbcDatabase.SelectCount | database.h:179-217 | the count step |
| OdbcObject.OdbcDatabase.Select | database.h:219-275 | the select step; nothing when not connected or a call before the loop fails |
| OdbcObject.OdbcDatabase.FetchAll | database.h:252-269 | the loop gives the rows up to the first fetch without plain success, in order |
| OdbcObject.OdbcDatabase.FetchRow | database.h:254-267 | every row has all its columns in order, empty where one cannot be read |
| MariaDbProtocol.ResetReleasesAll | database.cpp:84-88 | no handle is live when the replacement connection is built |
| MariaDbProtocol.ReconnectAct | database.cpp:78-107 | a connection that is up is left as it is; else the reconnect succeeds if and only if the five calls of connecting pass, the status is its outcome and the recovery flag the opposite |
| MariaDbProtocol.ManagerRuns | database.cpp:78-107 | across any number of connects and reconnects at most one environment and one connection are live, a true status means that a connected object is held, which is one whose connection is linked, and the recovery flag is set if and only if the latest attempt failed; no handle is misused |
| MariaDbProtocol.OnlyConnectConfuses | database.cpp:24-44 | recovery flag and status become true together if and only if a connect whose five calls pass is made with the recovery flag set |
| MariaDbProtocol.BothFlagsCanBeTrue | database.cpp:24-107 | a failed reconnect and then a connect that succeeds leave both flags true |
| MariaDbProtocol.ConnectIsSafeExactly | database.cpp:24-44 | a connect keeps recovery flag and status from being true together, whatever the driver will answer, if and only if the recovery flag is clear before it |
| MariaDbProtocol.CarefulConnectsKeepFlagsApart | database.cpp:24-107 | on every run whose connects are made with the recovery flag clear, a set recovery flag implies a false status |
| MariaDbProtocol.ConnectOnceKeepsFlagsApart | database.cpp:24-107 | with one connect, made first, a set recovery flag implies a false status |
| MariaDbProtocol.InsertExactly | database.cpp:243-371 | an insert returns true if and only if the connection is up, by the driver's answer, and the two calls after it pass; then it is logged and, read as meant, adds its row last, else the tables stay; the status is cleared if the connection is not up |
| MariaDbProtocol.LotIsInserted | database.cpp:243-371 | an insert of a lot with plain fields that returns true adds one row, in which each of the eleven columns has, by its own name, the lot's field of that name; one that returns false adds none |
| MariaDbProtocol.StatusIsInserted | database.cpp:109-165 | likewise for a status record and its three columns; the fourth stays open |
| MariaDbProtocol.RemoveExactly | database.cpp:425-447 | a delete empties its table if and only if the connection is up and the two calls after it pass, and leaves the other table alone |
| MariaDbProtocol.LastIdFromManager | database.cpp:373-385 | the last id is the driver's number, 0 or -1, for every combination of answers |
| MariaDbProtocol.EmptyCheckExactly | database.cpp:387-423 | the empty check is true if and only if the connection is up, the count could be had, and the table has no rows |
| MariaDbProtocol.TablesHoldWhatWentThrough | database.cpp:243-447 | after any run with plain fields each table holds its first rows and those of the logged inserts, all since the last logged delete |
| MariaDbProtocol.LogIsWhatCallersWereTold | database.cpp:357-370 | the logged inserts are exactly those that returned true, in order |
| MariaDbProtocol.EmptyCheckIsSound | database.cpp:387-423 | the empty check returns true only when the log leaves no row in the table |
| MariaDbProtocol.MariaDbIsFaithful | database.cpp:255-355 | the statement texts are read as the insert, delete and count they are meant to be |
| MariaDbObject.MariaDB.constructor | database.cpp:7-12 | nothing is held and both flags are false |
| MariaDbObject.MariaDB.FnConnectMariaLocalDatabase | database.cpp:24-44 | the connect action, on the held object or a new one |
| MariaDbObject.MariaDB.FnIsConnected | database.cpp:46-56 | true if and only if an object is held and connected, the driver can be asked, and it says that the connection is not dead |
| MariaDbObject.MariaDB.FnReconnectMariaLocalDatabase | database.cpp:78-107 | the reconnect action; the old object is destroyed before the new one connects |
| MariaDbObject.MariaDB.FnInsertEvLotStatusRecord | database.cpp:109-165 | the insert action with the three fields in the order of their columns |
| MariaDbObject.MariaDB.FnInsertEvLotTransRecord | database.cpp:243-371 | the insert action with the lot's eleven fields |
| MariaDbObject.MariaDB.GetLastInsertedId | database.cpp:373-385 | the last-id action for a table; -1 and a false status when the connection is down |
| MariaDbObject.MariaDB.IsTableEmpty | database.cpp:387-423 | the empty-check action for a table |
| MariaDbObject.MariaDB.RemoveAllRecords | database.cpp:425-447 | the delete action for a table |
| SqlText.RowReadsBackExactly | database.cpp:255-355 | a printed row reads back as one value for each field, NULL exactly for the empty ones and the text otherwise, if and only if every field is plain |
| SqlText.CleanIsPlain | database.cpp:258-355 | a field with no quote and no backslash is plain |
| SqlText.ApostropheIsLost | database.cpp:264 | a name with an apostrophe does not read back |
| SqlText.PrintingIsInjective | database.cpp:255-355 | two rows of plain fields that print alike are equal |
| SqlStatements.InsertIsRead | database.cpp:122-149 | from the text alone, an insert of plain fields is read as its table's name, its column names and its values, each in order |
| SqlStatements.UnderstoodInsert | database.cpp:256-355 | it is understood as an insert into that table of the row that has each value under the column named at its place |
| SqlStatements.NamedValue | database.cpp:256-355 | the i-th column named gets the i-th field, NULL if that is empty |
| SqlStatements.UnderstoodDelete | database.cpp:436 | from the text alone, the delete is understood as emptying its own table |
| SqlStatements.UnderstoodCount | database.cpp:399 | from the text alone, the count is understood as counting its own table |
| SqlStatements.UnderstoodLastId | database.h:152 | from the text alone, the last-id query is understood as asking for the last id by its own table |
| SqlBuilder.AppendValue | database.cpp:258-265 | an empty field is printed as NULL, another one between quotes, followed by the separator |
| SqlBuilder.BuildStatusInsert | database.cpp:121-149 | the query built value by value is the insert text of the three fields; with plain fields the database reads it as storing each under its own column name |
| SqlBuilder.BuildTransInsert | database.cpp:255-355 | the query built value by value is the insert text of the lot's fields; with plain fields the database reads it as storing each under its own column name |
| SqlBuilder.TransRecordIsStored | database.cpp:255-357 | a lot with plain fields is stored unchanged, each of the eleven fields under the column of its own name, empty ones as NULL |
| SqlBuilder.StatusRecordIsStored | database.cpp:121-151 | a status record with plain fields is stored under location_code, device_ip and error_code, and central_sent_dt is NULL |
| SqlBuilder.TransInsertIsInjective | database.cpp:255-355 | two lots with plain fields and the same statement are equal |
| SqlBuilder.ValuesMatchColumns | database/create_database_and_tables.sql:8-21 | each of the eleven values stands at the place of the column of its own name |
| HttpServer.ServerSession | camera.h:37-164 | in every run at most one operation is outstanding, a read finds the request empty, each response answers its own request in order, with 200 and success to a POST and 400 and fail to anything else and with the request's version and keep-alive, requests exceed responses by at most one, and all requests but the last asked to be kept alive |
| HttpServer.Transcript | camera.h:37-155 | the requests counted are those that the reads got, in order, and the responses counted are the writes that went through |
| HttpServer.NothingAfterClose | camera.h:157-164 | nothing completes after a close |
| HttpServer.RestAfter | camera.h:53-155 | a session comes to rest exactly at the end of the stream, a failed operation or a written response to a request not to be kept alive, and is closed then unless an operation failed |
| HttpServer.Session.DoRead | camera.h:37-51 | the request is emptied and a read started |
| HttpServer.Session.OnRead | camera.h:53-120 | the read handler: close, stop, or answer 200 to a POST and 400 to anything else |
| HttpServer.Session.Handle | camera.h:71-119 | the response sent is 200 to a POST and 400 to anything else, with the request's version and keep-alive |
| HttpServer.Session.OnWrite | camera.h:134-155 | the write handler: stop, close, or read again |
| HttpClient.OneReportEach | central.h:27-126 | each run started, also where runs overlap, has made exactly one callback, the verdict on the codes and the status of its own completions, or has one operation outstanding |
| HttpClient.VerdictByStage | central.h:46-126 | the verdict is labelled by the first failing stage and carries its code; where all pass, by the status |
| HttpClient.SuccessIsReported | central.h:118-121 | a run in which all goes well is reported with a clear code and no message |
| HttpClient.OneOutstanding | central.h:27-126 | when runs are started one at a time, one operation at most is outstanding |
| HttpClient.ResponseEmptyExactly | central.h:91-93 | the response is empty, as it should be when a read starts, if and only if no earlier run completed its read |
| HttpClient.SecondReadMeetsAResponse | central.h:91-93 | a second run's read starts on the response of the first |
| HttpClient.LoggedSuccessIsClearCodes | central.cpp:47-61 | Central logs a success if and only if all five codes are clear, whatever the status |
| HttpClient.LogIsTrueWhen | central.h:112-125 | in every run, each report is logged rightly if and only if a stage failed or the status is 200 just when the shutdown was clean |
| HttpClient.RefusedRequestLoggedAsSent | central.h:118-125 | a run with clear codes and another status: the message says so, but the handler logs a success |
| HttpClient.ForgivenShutdownLoggedAsFailure | central.h:109-121 | a run with status 200 and a forgiven shutdown error succeeds and is logged as a failure |
| HttpClient.HttpClientSession.Run | central.h:27-44 | a run starts with resolving, also while others are going on |
| HttpClient.HttpClientSession.OnResolve | central.h:46-61 | report, or connect |
| HttpClient.HttpClientSession.OnConnect | central.h:63-80 | report, or write |
| HttpClient.HttpClientSession.OnWrite | central.h:82-94 | report, or read |
| HttpClient.HttpClientSession.OnReadDone | central.h:96-126 | one report, by the read, the shutdown or the status |

## Left out

- Sockets, name resolution, TLS, Beast's parsing and buffers, timeouts on streams: only completion codes enter.
- What Beast does with two operations of the same kind on one stream, or with a message that is not empty: any completion code may come.
- `listener`, `CameraServer`, singletons, mutexes, `main.cpp` and the build: set-up with no property beyond one branch.
- JSON building, logging, the texts and outcome of the diagnosis (the call for it is modelled), date and time, the IP address, file names and `configuration.ini`: library and system calls; periods are parameters.
- Reading the image file: the encoder starts from the filled buffer, and the two failures are cases of the argument.
- Interleavings inside one start, stop or handler half: one `deadline_timer` does not allow unsynchronised calls, so each is one step.
- Lifetime of a timer through the shared pointer held by its handlers, and the order in which objects are destroyed at the end of the program.
- The two overloads of `start` are one: a start with no argument carries an empty payload.
- The last-id, empty-check and remove-all methods of `MariaDB`, two of each, differ only in the table's name; each pair is one method with the table as a parameter.
- Class methods that continue a longer one or stand for what happens below it (`SetUp`, `LinkUp`, `Handle`, `ReturnHandler`, `BeginStatement`, `RunStatement`, `FetchAll`, `FetchRow`, `AppendLot`, `AppendImages`, `AppendTimes`, `AppendSent`, `RunInsert`, `Next`, `SetClock`, `Settle`): in the program they are parts of one body, or of Asio.
- Calls of the two flag setters from outside: they are not actions of a run.
- Column types, lengths and the date format: a row that the tables' types refuse is an execution that reports no success.
- Connection strings, credentials and escaping of values.
- FilterTimer.RateIsBounded: the spans are of the model's clock, which has no jumps back; wall-clock changes are not modelled.
- OdbcProtocol.SelectExactly: that a text longer than the program's buffer of 256 bytes is cut off belongs to the driver's answers and is not described.
