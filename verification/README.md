# MicroOcpp in Dafny

This project models the stateful core of MicroOcpp, an OCPP 1.6 client for charging stations, and proves what
that core is for. `dafny verify dfyconfig.toml` checks all of it.

## What is modelled

**The transaction journal of a connector** (`Cyclic`, `BootScan`, `Journal`, `JournalInvariant`, `JournalRuns`,
`JournalSteps`, `JournalAllocation`, `JournalCharging`, `JournalAttempts`, `JournalOrder`, `JournalBoot`,
`JournalStale`, `Connector`). A cyclic window
of transaction numbers is at once an allocator, a history and an outgoing queue. The class `Connector` takes the
steps in place, each proved to be a function of the state. `JournalSteps` and `JournalAllocation` say what these
functions do over the fields of transactions and inputs, and the other modules prove safety over every interleaving
of loop, begin, end, poll, fetch and the answers of the server, and over the recovery at boot. Only that nothing
owed is skipped takes a poll before each begin.

**Message order** (`MeterQueue`, `Selection`, `MessageOrder`, `Alignment`, `Metering`). Connectors and meter queues
compete for one sender; the operation numbers of what is handed out never decrease. Meter values are taken at
times aligned to the day.

**Calendar time** (`Units`, `Digits`, `Calendar`, `Stamps`, `DateText`, `Timestamp`, `Clock`). Field-by-field
arithmetic refines integer seconds, checked against an independent closed-form calendar and against the widths of
the fields.

**The request protocol** (`Requests`, `RequestRing`, `RequestProtocol`, `ProtocolEvents`, `ProtocolBalance`,
`ProtocolSync`, `ProtocolRuns`, `ProtocolOrder`, `RequestQueue`, `BootService`). Ring buffers, one outstanding
request, timeouts, and the gate that stays closed until the BootNotification is accepted, as a step system with a
log of observable events.

**The local authorization list** (`CStrings`, `AuthData`, `AuthList`, `AuthUpdate`, `AuthorizationList`,
`AuthorizationService`). A sorted list, updated in place through marked and reused slots, equals a finite map; its
compact file restores it.

**Diagnostics upload and file index** (`Diagnostics`, `Ftp`, `FileIndex`, `FileIndexRuns`, `FileIndexWalk`,
`FilesystemAdapter`). A chunked producer and a partial sender transmit exactly the concatenated document; an index of
names and sizes agrees with the file system below it.

The pattern is the same in all parts. A class with the fields of the source is proved against functions on values;
the results are lemmas about those functions and about all runs made of them. Ticks, random choices of the
network, results of the file system, user inputs and the order of calls are parameters, so a lemma holds for all of
them.

## What turned out not to hold

- A transaction that is begun without a poll of the queue since its front transaction was done can make the next
  poll skip a transaction, until a reboot (`JournalStale.StartedIsSkipped`, `JournalOrder.PassedIsPassedForGood`,
  `JournalBoot.RebootQueuesOwed`). `JournalStale.PolledIffNothingIsLost` shows that the poll is exactly what it takes
  to lose nothing; the other journal results hold without it.
- The documented minimum of MAX_TX_CNT is too small for the boot scan once a silent transaction uses the extra slot:
  if the file system then lists one end of the window first, the scan forgets the other one, which may be owed
  (`JournalBoot.RebootKeepsInvIff` and `OwedIsForgotten`).
- The tick is cast to int before it is divided: pre-boot readings are not shifted for base ticks from 2^31 ms on.
- A response that comes in while the next request is waiting to be sent drops that request without a call of its
  listeners (`ProtocolRuns.LateResponseDropsUnsent`).
- A differential list update that is refused for its size has blanked the entries it was going to remove, and the
  blanked slots can hide other entries from the lookup (`AuthLists.BisectFindsIff` says which).
- For the same reason a differential update can miss its own later commands, which leaves entries that it removes or
  stores entries twice (`AuthUpdates.MissesNothingIff` says when, `RemovalHidesChange` is an example). Slots that a
  refused update left blank still count in the next update when its size is compared with the capacity.
- A list update that cannot be stored is rolled back only if the failed write left the old file in place, and a
  truncated write counts as stored.
- The list writer for messages turns the status Accepted into Invalid.
- The aligned time is not always the earliest one if the interval does not divide the day.
- The file index keeps size 0 for a file whose name is too long for the writer's buffer and gives its size to the
  file that has the cut name, if there is one. It loses a file whose removal fails.
- The walk over the index repeats or skips files if a callback removes other files (`FileIndexWalk.WalkIsInOrderIff`
  says when).

## Model

| member | source | states |
|---|---|---|
| JournalRuns.NothingOwedIsSkipped | src/MicroOcpp/Model/ConnectorBase/Connector.cpp:555-677 | In every state of every run in which the queue is polled before a transaction is begun, a transaction whose StartTx was triggered and whose StopTx is not confirmed (and that is not silent) is stored at a number between the queue front and the end of the window: no trimming, rollback or front advance skips it |
| JournalRuns.WindowStaysInOrder | src/MicroOcpp/Model/ConnectorBase/Connector.cpp:259-282 | In every state of every run, polled or not, begin, front and end are in cyclic order, and the current transaction is always the record just before end |
| JournalRuns.RunIsSound | src/MicroOcpp/Model/ConnectorBase/Connector.cpp:555-677 | Every state of every run, polled or not, keeps the sound part of the invariant: records inside the window under their own numbers, the current transaction the newest, all others settled, nothing left to send but in the store, and a front pointer with something left to send at the front |
| JournalRuns.RunKeepsInv | src/MicroOcpp/Model/ConnectorBase/Connector.cpp:555-677 | With these polls the whole invariant of the first state holds in every state of the run |
| JournalRuns.WindowStaysBounded | src/MicroOcpp/Model/ConnectorBase/Connector.cpp:592-674 | If the store can remove files, the window never holds more than MO_TXRECORD_SIZE + 1 numbers, the extra slot is used only by a silent newest transaction, and a begin never runs out of numbers, so that such a run is one of those of the other results |
| JournalRuns.TransactionsOnlyProgress | src/MicroOcpp/Model/ConnectorBase/Connector.cpp:296-430 | Over any stretch of a run a transaction only moves forward in its life cycle: inactivity, requests, confirmations and their operation numbers are never taken back |
| JournalRuns.StartIsTriggeredAtMostOnce | src/MicroOcpp/Model/ConnectorBase/Connector.cpp:338-384 | StartTx of a transaction is triggered by at most one loop() call of a run |
| JournalRuns.StopIsTriggeredAtMostOnce | src/MicroOcpp/Model/ConnectorBase/Connector.cpp:385-428 | StopTx of a transaction is triggered by at most one loop() call of a run |
| JournalRuns.StopComesAfterStart | src/MicroOcpp/Model/ConnectorBase/Connector.cpp:385-428 | When both are triggered in a run, StopTx is triggered in a later step than StartTx |
| JournalRuns.InactiveIsNeverStarted | src/MicroOcpp/Model/ConnectorBase/Connector.cpp:323-345 | A transaction that is inactive or deauthorized at some moment of a run is not started from then on |
| JournalRuns.StopIsSentAfterStartConfirmed | src/MicroOcpp/Model/ConnectorBase/Connector.cpp:1140-1276 | A StopTx is handed to the request queue only after the StartTx of the same transaction was confirmed |
| JournalRuns.NoChargingAfterEnd | src/MicroOcpp/Model/ConnectorBase/Connector.cpp:221-248 | After endTransaction charging is not permitted in any later state before a transaction is created; begin calls that create none do not matter |
| JournalCharging.ChargingIsAuthorized | src/MicroOcpp/Model/ConnectorBase/Connector.cpp:221-248 | Charging is permitted only for a transaction that was begun with an authorization or that an answer to Authorize granted, in this run or before it |
| JournalCharging.ChargingIff | src/MicroOcpp/Model/ConnectorBase/Connector.cpp:221-248 | Over every run: charging is permitted exactly for a current transaction that was granted, that no event has ended, that no answer has refused (unless energy is free), and that was started and not stopped (unless transactions start when the power path is closed) |
| JournalCharging.FlagsTellHistory | src/MicroOcpp/Model/ConnectorBase/Connector.cpp:788-906 | In every state of a run the flags of a transaction are its history: authorized exactly if begun so or granted by an Authorize answer or timeout, deauthorized exactly if an answer refused it, inactive exactly if one of the listed events ended it, started and stopped exactly if loop() triggered that |
| JournalCharging.RefusedIsForGood | src/MicroOcpp/Model/ConnectorBase/Connector.cpp:801-808 | After a refusing answer to Authorize or StartTransaction a transaction never starts, and charging for it needs FreeVend |
| JournalCharging.EndedIsForGood | src/MicroOcpp/Model/ConnectorBase/Connector.cpp:853-905 | After a reservation conflict, a timeout without permission, or any other event that ends it, a transaction never starts and charging for it is not permitted |
| JournalSteps.StartIsTriggeredIff | src/MicroOcpp/Model/ConnectorBase/Connector.cpp:338-384 | loop() triggers StartTx if and only if the current transaction is active, authorized, not deauthorized and not started, the EV is plugged in where that can be known, the connection timeout has not come, the connector is operative, and the power path and StartTx inputs allow it |
| JournalSteps.StopIsTriggeredIff | src/MicroOcpp/Model/ConnectorBase/Connector.cpp:385-428 | loop() triggers StopTx if and only if the current transaction is running, the StopTx input allows it, and it is inactive or ends in this call by a disconnect or a withdrawn authorization |
| JournalSteps.LoopEndsIff | src/MicroOcpp/Model/ConnectorBase/Connector.cpp:296-336 | loop() makes an active transaction inactive if and only if it is current and a disconnect, the connection timeout or a withdrawn authorization applies |
| JournalSteps.LoopMeaning | src/MicroOcpp/Model/ConnectorBase/Connector.cpp:284-430 | All of what one call of loop() does to the transactions, the current one and the operation number |
| JournalSteps.LoopMovesWindow | src/MicroOcpp/Model/ConnectorBase/Connector.cpp:259-282 | loop() gives a number back if and only if its current transaction is aborted and to be cleaned, or silent and stopped, and its files were removed |
| JournalSteps.StartIsHandedOutIff | src/MicroOcpp/Model/ConnectorBase/Connector.cpp:1142-1190 | A fetch hands StartTx out if and only if it is pending at the front, its start time is not lost, attempts are left, and the attempts made times the retry interval have passed since the latest one |
| JournalSteps.StopIsHandedOutIff | src/MicroOcpp/Model/ConnectorBase/Connector.cpp:1222-1260 | The same for StopTx |
| JournalSteps.FetchMeaning | src/MicroOcpp/Model/ConnectorBase/Connector.cpp:1140-1279 | All of what a fetch does: it gives up exactly if the attempts are used up or the start time is lost, counts one attempt exactly if it sends, and changes nothing otherwise |
| JournalSteps.ReplyMeaning | src/MicroOcpp/Model/ConnectorBase/Connector.cpp:795-906 | Which fields each answer, timeout and abort changes |
| JournalSteps.StepChanges | src/MicroOcpp/Model/ConnectorBase/Connector.cpp:221-430 | For every step and every transaction, which flags change, exactly |
| JournalSteps.BeginKeepsOthers | src/MicroOcpp/Model/ConnectorBase/Connector.cpp:679-762 | A begin call leaves the other transactions alone, and the one that it creates is new, active and current, and authorized as the call says |
| JournalSteps.PollMeaning | src/MicroOcpp/Model/ConnectorBase/Connector.cpp:1093-1125 | A poll moves the front over records that have nothing to send and no further, and loads the first that has |
| JournalSteps.ChargingIsPermittedIff | src/MicroOcpp/Model/ConnectorBase/Connector.cpp:233-247 | The permission over the fields, in both directions |
| JournalAllocation.AllocationMakesRoom | src/MicroOcpp/Model/ConnectorBase/Connector.cpp:555-677 | Which records give way at either end of the window, how many, and when a regular record, a silent one or none is created |
| JournalAllocation.BeginMovesWindow | src/MicroOcpp/Model/ConnectorBase/Connector.cpp:650-676 | The new record is put at the end of the window that the allocation leaves |
| JournalAttempts.AttemptsAreBounded | src/MicroOcpp/Model/ConnectorBase/Connector.cpp:1156-1214 | With TransactionMessageAttempts at most n, neither StartTx nor StopTx of a transaction is handed out more than n times over any run, whatever else happens in between |
| JournalAttempts.AttemptsAreCounted | src/MicroOcpp/Model/ConnectorBase/Connector.cpp:1182-1241 | The attempt counters of a transaction grow by exactly the number of messages that were handed out for it |
| JournalAttempts.RetriesAreSpaced | src/MicroOcpp/Model/ConnectorBase/Connector.cpp:1175-1184 | Between two successive hand-outs of the same StartTx or StopTx at least the number of attempts made times the retry interval passes |
| JournalAttempts.FetchGivesUpAfterAttempts | src/MicroOcpp/Model/ConnectorBase/Connector.cpp:1156-1171 | In every run a fetch gives a transaction up only after the configured number of hand-outs of its pending message, or when its start time is lost |
| JournalAttempts.SilentOnlyIfGivenUp | src/MicroOcpp/Model/ConnectorBase/Connector.cpp:1145-1232 | A step makes a transaction silent if and only if it gives it up |
| JournalInvariant.BeginKeepsInv | src/MicroOcpp/Model/ConnectorBase/Connector.cpp:555-677 | An allocation keeps the journal sound in all outcomes of the store, and on a polled queue the whole invariant; PolledIffNothingIsLost shows that no weaker condition does |
| JournalInvariant.LoopKeepsInv | src/MicroOcpp/Model/ConnectorBase/Connector.cpp:250-430 | loop() keeps the journal sound and the journal invariant, including the rollback of aborted and silent transactions |
| JournalInvariant.PollKeepsInv | src/MicroOcpp/Model/ConnectorBase/Connector.cpp:1087-1138 | A poll keeps the journal sound and the invariant, and leaves a queue front that is not done |
| JournalOrder.PollReportsSmallestOwed | src/MicroOcpp/Model/ConnectorBase/Connector.cpp:1127-1138 | If no poll was left out, the number that a polled connector reports is the smallest operation number that it still owes to the server, and NoOperation if it owes none |
| JournalOrder.PollReportsSmallestQueued | src/MicroOcpp/Model/ConnectorBase/Connector.cpp:1127-1138 | In all cases it is the smallest operation number that the poll leaves in the queue |
| JournalOrder.PassedIsPassedForGood | src/MicroOcpp/Model/ConnectorBase/Connector.cpp:1093-1125 | Over any stretch of a run, a transaction that is not queued, because it was skipped or removed, never comes back into the queue |
| JournalOrder.StepKeepsAscending | src/MicroOcpp/Model/ConnectorBase/Connector.cpp:365-411 | Every step, also a begin on a queue that was not polled, keeps the operation numbers ascending along the window, StartTx before StopTx and older transactions before newer ones |
| JournalStale.PolledIffNothingIsLost | src/MicroOcpp/Model/ConnectorBase/Connector.cpp:555-645 | The exact condition for a begin: the queue was polled since its front transaction was done if and only if, whatever the file system does in the call, the next poll has every transaction in the queue that is not done |
| JournalStale.UnpolledBeginIsSafeIff | src/MicroOcpp/Model/ConnectorBase/Connector.cpp:1093-1125 | For one call and one behaviour of the file system: nothing is lost if and only if the queue was polled before, or the record that the call leaves at the front is missing or done; then the next poll restores the invariant |
| JournalStale.FreeVendIsSafeIff | src/MicroOcpp/Model/ConnectorBase/Connector.cpp:432-448 | When loop() begins a FreeVend transaction, possibly right after a rollback in the same call, nothing is lost whatever the file system does if and only if the queue was polled before loop() |
| JournalStale.TrimmedBackLosesNew | src/MicroOcpp/Model/ConnectorBase/Connector.cpp:562-590 | If the only queued transaction was given up and the allocation removes it from the end before a poll, the new transaction takes its number and the next poll skips it |
| JournalStale.NewTransactionIsQueuedIff | src/MicroOcpp/Model/ConnectorBase/Connector.cpp:1093-1125 | Beginning a regular transaction on an empty queue: the next poll keeps it in the queue, and loses none, if and only if the stale front pointer was cleared by a poll before |
| JournalStale.TrimmedFrontLosesNext | src/MicroOcpp/Model/ConnectorBase/Connector.cpp:605-645 | If the confirmed front transaction is trimmed from a full window before a poll, the next poll skips the transaction behind it although the server still waits for it |
| JournalStale.RollbackLeavesStalePointer | src/MicroOcpp/Model/ConnectorBase/Connector.cpp:259-282 | The rollback in loop() of a polled, aborted transaction leads to a queue whose front pointer is stale |
| JournalStale.StalePointerIsReached | src/MicroOcpp/Model/ConnectorBase/Connector.cpp:259-282 | This happens in a run from an empty flash: begin, poll, end, loop |
| JournalStale.StartedIsSkipped | src/MicroOcpp/Model/ConnectorBase/Connector.cpp:1093-1125 | The run goes on with begin, loop and poll: a transaction whose StartTx was triggered is owed, but no longer in the queue |
| JournalBoot.RebootKeepsInvIff | src/MicroOcpp/Model/ConnectorBase/Connector.cpp:87-131 | After a reboot the recovered journal meets the invariant, so that every owed transaction is queued again, if and only if it is not the case that the window is one longer than half of MAX_TX_CNT, both of its ends are stored and the file system lists one of them first |
| JournalBoot.RebootDuringRun | src/MicroOcpp/Model/ConnectorBase/Connector.cpp:87-131 | The same exact condition at any moment of any run in which files can be removed; it can fail only if MAX_TX_CNT is at its documented minimum and the extra slot is in use |
| JournalBoot.RebootQueuesOwed | src/MicroOcpp/Model/ConnectorBase/Connector.cpp:87-131 | In these cases a reboot queues every owed transaction again, even one that a stale front pointer has skipped |
| JournalBoot.RebootKeepsInvAnyLength | src/MicroOcpp/Model/ConnectorBase/Connector.cpp:87-131 | For windows of any length: the invariant is kept if and only if all stored numbers are less than half a turn away from the first one listed and all transactions are settled but the one that becomes current, which is the last one less than half a turn ahead of it |
| JournalBoot.StartingAtEndForgets | src/MicroOcpp/Model/ConnectorBase/Connector.cpp:105-115 | If the listing starts with one end of such a window, the record at its other end is left out |
| JournalBoot.OwedIsForgotten | src/MicroOcpp/Model/ConnectorBase/Connector.cpp:87-131 | A run from an empty flash with MAX_TX_CNT 3 and MO_TXRECORD_SIZE 1 after which an owed transaction is not in the recovered queue if its file is listed last |
| JournalBoot.RebootFindsNewest | src/MicroOcpp/Model/ConnectorBase/Connector.cpp:126-128 | The last recovered number is the newest stored one, and it is the current transaction of before, if there was one, in all cases in which the invariant is kept |
| JournalBoot.EmptyBoot | src/MicroOcpp/Model/ConnectorBase/Connector.cpp:83-131 | An empty flash gives an empty journal from which every run may begin |
| JournalBoot.DocumentedMinimumForgetsNewest | src/MicroOcpp/Model/Transactions/Transaction.h:45 | With MAX_TX_CNT at its documented minimum and number 0 listed first, the scan forgets number MO_TXRECORD_SIZE |
| BootScan.WindowIsSmallest | src/MicroOcpp/Model/ConnectorBase/Connector.cpp:98-115 | If the stored numbers lie in a cyclic range shorter than half of MAX_TX_CNT, the recovered window contains all of them and is contained in every window that does |
| BootScan.WindowCoversExactlyNearNumbers | src/MicroOcpp/Model/ConnectorBase/Connector.cpp:105-115 | For any numbers: the recovered window contains a number of the listing if and only if it is less than half a turn away from the first one |
| BootScan.WindowEndsAreExtreme | src/MicroOcpp/Model/ConnectorBase/Connector.cpp:105-115 | Both ends of the recovered window are stored numbers, the first and the last one, if all numbers are less than half a turn before or behind the one listed first |
| BootScan.EnumerationOrderIsIrrelevant | src/MicroOcpp/Model/ConnectorBase/Connector.cpp:90-120 | Two enumerations of the same short range recover the same window |
| BootScan.HalfTurnApartIsForgotten | src/MicroOcpp/Model/ConnectorBase/Connector.cpp:105-115 | Two numbers exactly half a turn apart: the second one is left out |
| BootScan.NameTellsConnectorAndNumber | src/MicroOcpp/Model/ConnectorBase/Connector.cpp:83-96 | A file name such as tx-1-10.json is read back to its own number by its own connector and ignored by every other connector |
| BootScan.Recover | src/MicroOcpp/Model/ConnectorBase/Connector.cpp:89-124 | The directory walk as loops computes the fold over the numbers of this connector |
| ConnectorBase.Connector.constructor | src/MicroOcpp/Model/ConnectorBase/Connector.cpp:83-131 | The constructor sets up the recovered window and the newest transaction |
| ConnectorBase.Connector.AllocateTransaction | src/MicroOcpp/Model/ConnectorBase/Connector.cpp:555-677 | The two trimming loops, the creation and the silent fallback change the state as the allocation function of the journal says |
| ConnectorBase.Connector.BeginTransaction | src/MicroOcpp/Model/ConnectorBase/Connector.cpp:679-760 | begin allocates when there is no current transaction and no reservation conflict, and otherwise leaves everything alone |
| ConnectorBase.Connector.EndTransaction | src/MicroOcpp/Model/ConnectorBase/Connector.cpp:951-970 | Only an active current transaction is deactivated |
| ConnectorBase.Connector.OcppPermitsCharge | src/MicroOcpp/Model/ConnectorBase/Connector.cpp:221-248 | Charging is permitted exactly in the cases of the journal function |
| ConnectorBase.Connector.Loop | src/MicroOcpp/Model/ConnectorBase/Connector.cpp:250-430 | loop() takes the step that JournalSteps describes over its inputs, and issues a new operation number exactly when it triggers a message |
| ConnectorBase.Connector.LoopWithFreeVend | src/MicroOcpp/Model/ConnectorBase/Connector.cpp:250-448 | With the FreeVend part, loop() begins an authorized transaction exactly if it triggered no message, FreeVend is on, an EV was just plugged in and the rest of the call left no current transaction, and keeps track of the plug |
| ConnectorBase.Connector.GetFrontRequestOpNr | src/MicroOcpp/Model/ConnectorBase/Connector.cpp:1087-1138 | The polling loop advances the front as the journal function says and reports its number |
| ConnectorBase.Connector.FetchFrontRequest | src/MicroOcpp/Model/ConnectorBase/Connector.cpp:1140-1279 | fetchFrontRequest takes the step that JournalSteps describes |
| MeterQueue.PollReportsSmallestOwed | src/MicroOcpp/Model/Metering/MeteringConnector.cpp:252-262 | The head of a polled meter queue is the smallest number it still owes |
| MeterQueue.FetchMeaning | src/MicroOcpp/Model/Metering/MeteringConnector.cpp:264-290 | When the value in front is handed out, dropped and kept, exactly |
| MeterQueue.AttemptsAreBounded | src/MicroOcpp/Model/Metering/MeteringConnector.cpp:270-283 | Over any run no value is handed out more often than the configured number of attempts |
| Metering.RetryIsDueIff | src/MicroOcpp/Model/Metering/MeteringConnector.cpp:276-278 | In real milliseconds a retry is due exactly when the attempts made, each with the interval, have passed |
| Selection.SelectIsFirstMinimum | src/MicroOcpp/Core/RequestQueue.cpp:194-206 | The chosen queue has the smallest number, is the first of those that have it, and none is chosen only if all are empty |
| Selection.SelectQueue | src/MicroOcpp/Core/RequestQueue.cpp:192-207 | The loop over the queues computes this choice |
| MessageOrder.MessageIsSmallestOwed | src/MicroOcpp/Core/RequestQueue.cpp:192-207 | If no connector left out a poll, the message that is handed out carries the smallest number that any connector or meter queue still owes |
| MessageOrder.MessageIsSmallestQueued | src/MicroOcpp/Core/RequestQueue.cpp:192-207 | In all cases it carries the smallest number that is left in any queue when all were polled |
| MessageOrder.HandedOutMeaning | src/MicroOcpp/Core/RequestQueue.cpp:192-207 | Which message a scheduling step hands out, exactly: that of the first emitter with the smallest number, if it may be sent now, under its own number |
| MessageOrder.RunKeepsGood | src/MicroOcpp/Core/RequestQueue.cpp:192-261 | The invariant over all connectors, meter queues and the numbers handed out, required of the first state only, holds in every state of every run |
| MessageOrder.MessagesInOrder | src/MicroOcpp/Core/RequestQueue.cpp:192-261 | Over any run without reboot, the operation numbers of StartTx, StopTx and MeterValues over all emitters never decrease, under retries, dropped values, given-up messages and skipped transactions |
| Calendar.MonthLength | src/MicroOcpp/Core/Time.cpp:30-34 | The leap-year rule of noDays is the distance of month starts in an independent closed-form Gregorian calendar |
| Calendar.LaterMonth | src/MicroOcpp/Core/Time.cpp:30-34 | Later months start later in that calendar, by at least the days of the months between |
| Calendar.FourCenturies | src/MicroOcpp/Core/Time.cpp:30-34 | The calendar repeats after 400 years of 146097 days |
| Stamps.LessIsFewerSeconds | src/MicroOcpp/Core/Time.cpp:304-322 | For valid timestamps a is before b exactly if it has fewer epoch seconds, or as many and only a is a leap second |
| Stamps.SecondsAreInjective | src/MicroOcpp/Core/Time.cpp:292-298 | Normalized timestamps with equal epoch seconds are equal field by field |
| Time.Timestamp.AddSeconds | src/MicroOcpp/Core/Time.cpp:157-208 | For every valid timestamp and every int number of seconds whose result has a year of 16 bits, += ends normalized and its epoch seconds grow by exactly the argument, with all carries, borrows and early returns and no overflow of a field |
| Time.PlusSeconds | src/MicroOcpp/Core/Time.cpp:282-290 | The binary + and - of a timestamp and seconds add exactly, under the same condition on the result |
| Time.Difference | src/MicroOcpp/Core/Time.cpp:231-266 | For timestamps of 1970 to 2037 and of 2038-01-01 the counting loops return the exact difference of epoch seconds, and no counter overflows |
| Time.LargestDifference | src/MicroOcpp/Core/Time.cpp:231-266 | Differences within 1970 to 2037 are at most 2145916800 seconds |
| Time.MonthStartInEpoch | src/MicroOcpp/Core/Time.cpp:240-258 | The 16 bit day counters stay at most 24837 up to January 2038 |
| Time.Timestamp.SetTime | src/MicroOcpp/Core/Time.cpp:36-118 | The fields change only if the string is accepted, and then to what it says |
| Time.Timestamp.ToJsonString | src/MicroOcpp/Core/Time.cpp:120-155 | Prints all fields into the buffer, or fails without touching a buffer that is too small |
| DateText.ParsePrinted | src/MicroOcpp/Core/Time.cpp:36-155 | Parsing a printed timestamp of 1970 to 2037 gives the same timestamp |
| DateText.PrintParsed | src/MicroOcpp/Core/Time.cpp:36-155 | Printing a parsed string gives back its first 19 characters |
| DateText.AcceptedIffPrinted | src/MicroOcpp/Core/Time.cpp:36-118 | A string is accepted if and only if its first 19 characters are those of a printed timestamp of that range, and what follows a point has three characters, one of them a digit, that make a number below 1000 as the source counts them |
| DateText.FractionIsIgnored | src/MicroOcpp/Core/Time.cpp:80-94 | A fraction of three digits is accepted and leaves the timestamp as it is |
| DateText.PrintedExample | src/MicroOcpp/Core/Time.cpp:120-155 | The layout of the text, at an example |
| Clocks.NoDrift | src/MicroOcpp/Core/Time.cpp:358-372 | After any polling schedule without a gap of a whole turn of the tick counter, now() shows base time plus the full seconds passed |
| Clocks.PollIsExactIffInTime | src/MicroOcpp/Core/Time.cpp:358-372 | One poll stays exact if and only if less than one turn of the tick counter has passed since the last full second counted |
| Clocks.NeverGoesBack | src/MicroOcpp/Core/Time.cpp:358-372 | Between two settings now() never goes back |
| Clocks.AdjustmentShifts | src/MicroOcpp/Core/Time.cpp:374-380 | For a base tick below 2^31 ms, adjusting pre-boot readings preserves their differences and never exceeds the base time |
| Clocks.AdjustmentIsWithinOneSecond | src/MicroOcpp/Core/Time.cpp:374-380 | An adjusted pre-boot reading is less than one second away from the true instant |
| Clocks.AdjustmentIsShiftIff | src/MicroOcpp/Core/Time.cpp:374-380 | For which base ticks and readings the adjustment is the plain shift, exactly; from 2^31 ms on the result is the base time for most readings |
| Clocks.LateBaseTickLosesReading | src/MicroOcpp/Core/Time.cpp:374-380 | Example of the failing case: with a base tick of 2^31 ms a reading of one second becomes the base time itself, more than 2147000 seconds late |
| Clocks.Clock.Now | src/MicroOcpp/Core/Time.cpp:358-372 | now() advances the reading as the clock function says and returns a normalized timestamp |
| Clocks.Clock.SetTime | src/MicroOcpp/Core/Time.cpp:341-356 | A setting takes over the parsed time and the tick, a malformed string changes nothing |
| Clocks.Clock.AdjustPrebootTimestamp | src/MicroOcpp/Core/Time.cpp:374-380 | The fields give the adjusted epoch seconds |
| Alignment.NextIsAlignedSoon | src/MicroOcpp/Model/Metering/MeteringConnector.cpp:124-136 | The next aligned time lies in (now, now + interval] and is midnight or a multiple of the interval after midnight |
| Alignment.NextIsEarliestIff | src/MicroOcpp/Model/Metering/MeteringConnector.cpp:124-136 | It is the earliest aligned instant exactly if the last, shorter stretch of the day holds no further multiple; the contract gives the condition on now and interval |
| Alignment.DivisorSkipsNothing | src/MicroOcpp/Model/Metering/MeteringConnector.cpp:124-136 | If the interval divides the day, no aligned instant is skipped |
| Metering.MeteringConnector.Reschedule | src/MicroOcpp/Model/Metering/MeteringConnector.cpp:124-136 | The field arithmetic on timestamps computes this next aligned time, which can be subtracted again in the next call |
| Metering.MeteringConnector.LoopClockAligned | src/MicroOcpp/Model/Metering/MeteringConnector.cpp:91-137 | A measurement is queued exactly if the aligned time is at most 60 s off, and rescheduling happens exactly if it elapsed or the clock was adjusted; the new time meets the condition of the next call |
| Metering.MeteringConnector.FetchFrontRequest | src/MicroOcpp/Model/Metering/MeteringConnector.cpp:264-303 | Sends, waits, drops after the last attempt, and drops values of silent transactions, as the queue function says |
| Requests.KeptAndExpiredPartition | src/MicroOcpp/Core/RequestQueue.cpp:26-55 | Every queued request either stays or times out; none is lost or duplicated |
| Requests.TimesOutIff | src/MicroOcpp/Core/Request.cpp:50-54 | A request times out exactly when its period has passed, and with period 0 never |
| Requests.OnlyTested | src/MicroOcpp/Core/RequestQueue.cpp:26-55 | A request stays exactly if its own test says so |
| Requests.KeptInPlace | src/MicroOcpp/Core/RequestQueue.cpp:26-55 | What stays keeps its place among what stays |
| RequestRing.VolatileRequestQueue.Loop | src/MicroOcpp/Core/RequestQueue.cpp:26-55 | The in-place removal from the ring leaves the list of the requests that have not timed out, in order, and executes every other timeout once, in order |
| RequestRing.VolatileRequestQueue.PushRequestBack | src/MicroOcpp/Core/RequestQueue.cpp:79-120 | A push appends; a full queue gives up exactly its oldest request |
| RequestRing.VolatileRequestQueue.FetchFrontRequest | src/MicroOcpp/Core/RequestQueue.cpp:65-77 | Takes the oldest request |
| ProtocolRuns.RequestIsInOnePlace | src/MicroOcpp/Core/RequestQueue.cpp:135-230 | In every state of every run, each request that came in is held in exactly one place or has ended exactly once; it is transmitted at most once and at most one of its confirmation, abort and timeout listeners is called |
| ProtocolRuns.OneRequestAtATime | src/MicroOcpp/Core/RequestQueue.cpp:188-229 | Between two transmissions of a run there is an incoming response or the timeout of the first request (section 4.1.1 of OCPP-J 1.6) |
| ProtocolOrder.DefaultQueueIsFifo | src/MicroOcpp/Core/RequestQueue.cpp:26-120 | Over any run, requests are fetched from the default queue in the order in which they were sent, and those that still wait come after all of them in that order: timeouts and evictions leave requests out but never reorder them |
| ProtocolRuns.NothingIsFetchedBeforeBoot | src/MicroOcpp/Model/Boot/BootService.cpp:19-29 | When a request of any queue but the pre-boot queue is fetched, a BootNotification was accepted before (section 4.2 of OCPP 1.6) |
| ProtocolRuns.EndsSilentlyIff | src/MicroOcpp/Core/Request.cpp:117-165 | A request ends without a call of its listeners exactly if a response comes in while it is at the front, and the response has another message ID or is an error that the operation wants to retry |
| ProtocolRuns.ResponseDropsUnsentIff | src/MicroOcpp/Core/RequestQueue.cpp:354-361 | Every response drops the request at the front; that request was never transmitted if and only if it is not marked as sent, so a late response loses the next request |
| ProtocolRuns.LateResponseDropsUnsent | src/MicroOcpp/Core/RequestQueue.cpp:354-361 | A run from the start in which this happens: the response to a request that has timed out drops the next one, which was never transmitted |
| ProtocolBalance.StepBalances | src/MicroOcpp/Core/RequestQueue.cpp:135-230 | Each step changes the number of places that hold a request by what came in minus what ended |
| ProtocolSync.StepFollows | src/MicroOcpp/Core/RequestQueue.cpp:135-230 | Each step keeps the pending request of the state equal to the outstanding request that an observer of the messages sees |
| RequestQueues.RequestQueue.Loop | src/MicroOcpp/Core/RequestQueue.cpp:135-230 | The loop over the queue objects takes the step of the protocol and reports its events |
| RequestQueues.RequestQueue.FetchNext | src/MicroOcpp/Core/RequestQueue.cpp:192-207 | Fetches from the queue with the smallest number and from no other |
| RequestQueues.RequestQueue.ReceiveResponse | src/MicroOcpp/Core/RequestQueue.cpp:354-361 | Takes the response step of the protocol |
| ProtocolEvents.FetchedIff | src/MicroOcpp/Core/RequestQueue.cpp:192-207 | loop() fetches a request if and only if the connection is there, no incoming request is answered, nothing is at the front, the number of its queue is the first smallest one, and it is the next one of that queue: default, pre-boot or any other |
| ProtocolEvents.LoopFetches | src/MicroOcpp/Core/RequestQueue.cpp:192-207 | The fetched request leaves its queue and is at the front, and no other queue changes |
| ProtocolEvents.TransmittedIff | src/MicroOcpp/Core/RequestQueue.cpp:209-229 | loop() transmits a request if and only if it is at the front or fetched, not sent before, created, and taken by the connection |
| ProtocolEvents.TimedOutIff | src/MicroOcpp/Core/RequestQueue.cpp:137-160 | The timeout listeners of a request are called if and only if it waits at a front or in the default queue and its period has passed |
| ProtocolEvents.AnsweredIff | src/MicroOcpp/Core/RequestQueue.cpp:162-186 | An incoming request is answered if and only if it is the next one, its response is ready, and the connection takes it |
| ProtocolEvents.ResponseMeaning | src/MicroOcpp/Core/Request.cpp:117-165 | Which listener a response calls, exactly |
| ProtocolEvents.PushMeaning | src/MicroOcpp/Core/RequestQueue.cpp:79-120 | A queue of 10 gives up its oldest request for a new one |
| BootServices.BootService.Loop | src/MicroOcpp/Model/Boot/BootService.cpp:60-108 | Drops timed out requests, opens the other queues exactly after acceptance, and queues a BootNotification exactly if it is due |
| BootServices.SendsIff | src/MicroOcpp/Model/Boot/BootService.cpp:84-108 | In real milliseconds: a BootNotification is sent if and only if there is no acceptance and the interval has passed since the latest one, the latest answer or the latest setting of the interval |
| BootServices.NotificationsAreSpaced | src/MicroOcpp/Model/Boot/BootService.cpp:84-108 | Over every run, two BootNotifications are at least the interval apart that is set when the second one is sent |
| BootServices.BootService.NotifyRegistrationStatus | src/MicroOcpp/Model/Boot/BootService.cpp:148-151 | Only an accepted registration counts as boot acceptance |
| CStrings.Antisymmetric | src/MicroOcpp/Model/Authorization/AuthorizationList.cpp:36 | The comparison of idTags is zero exactly for equal tags and changes its sign when they are swapped |
| CStrings.BeforeIff | src/MicroOcpp/Model/Authorization/AuthorizationList.cpp:36 | The order is the lexicographic one |
| AuthorizationLists.AuthorizationList.Get | src/MicroOcpp/Model/Authorization/AuthorizationList.cpp:25-46 | On a sorted list the binary search finds an idTag if and only if a linear search does; with slots blanked by a refused update it finds a stored entry if and only if the entry is not hidden |
| AuthLists.BisectFindsIff | src/MicroOcpp/Model/Authorization/AuthorizationList.cpp:25-46 | On a list with blanked slots the binary search finds a stored entry if and only if none of the positions that it looks at on the way there is a blanked slot behind it |
| AuthLists.BlankedIsMonotoneIff | src/MicroOcpp/Model/Authorization/AuthorizationList.cpp:25-46 | A case in which no entry is hidden: the order that binary search for a tag relies on is intact if and only if every entry before a blanked slot precedes that tag |
| AuthLists.BlankHidesEarlierEntry | src/MicroOcpp/Model/Authorization/AuthorizationList.cpp:25-46 | Example of a hidden entry: a blanked slot in the middle of three hides the entry before it |
| AuthorizationLists.AuthorizationList.ReadJson | src/MicroOcpp/Model/Authorization/AuthorizationList.cpp:48-176 | A full update replaces the list by the sorted entries. A differential update of distinct tags, also on a list with slots blanked by a refused update: each command that is missed although its tag is stored adds one to the size of the list; it succeeds exactly if the size of the updated map, the missed commands and the slots that were blank are at most MO_LocalAuthListMaxLength, and then the list is strictly sorted and equals the map with the commands applied one by one if and only if none was missed. A refused one that missed none leaves the list unchanged if and only if no remove command hit a stored tag |
| AuthUpdates.MissesNothingIff | src/MicroOcpp/Model/Authorization/AuthorizationList.cpp:79-103 | No command of an update of distinct tags is missed if and only if on the way of the binary search to its entry, and behind it, there is no slot that is blank or whose entry an earlier command removes |
| AuthUpdates.MissedIffHidden | src/MicroOcpp/Model/Authorization/AuthorizationList.cpp:79-83 | A command is missed exactly if its entry is hidden by the slots blanked so far |
| AuthUpdates.RemovalHidesChange | src/MicroOcpp/Model/Authorization/AuthorizationList.cpp:79-103 | Example: in a list of three, the removal of the middle entry makes a change of the first one miss |
| AuthLists.InOrderIsUpdatable | src/MicroOcpp/Model/Authorization/AuthorizationList.cpp:79-103 | An update of a list without blanked slots misses no command if only later tags follow the removal of a stored one |
| AuthorizationLists.AuthorizationList.BuildIndex | src/MicroOcpp/Model/Authorization/AuthorizationList.cpp:72-103 | First pass, for all updates of distinct tags: the predicted size is the size of the updated map, the missed commands and the slots that were blank; if none is missed, every command is found in the right slot |
| AuthorizationLists.AuthorizationList.ApplyChanges | src/MicroOcpp/Model/Authorization/AuthorizationList.cpp:119-146 | Second pass: updates go to their own slots, insertions to blanked slots or to the end, and the list ends with exactly the predicted number of entries |
| AuthUpdates.ChangingEnds | src/MicroOcpp/Model/Authorization/AuthorizationList.cpp:119-146 | The list that the second pass leaves represents the updated map if no command was missed |
| AuthLists.RemovalsMayGoFirst | src/MicroOcpp/Model/Authorization/AuthorizationList.cpp:79-146 | Making all removals first and all changes afterwards gives the same map as one command after the other |
| AuthLists.UpdateMeaning | src/MicroOcpp/Model/Authorization/AuthorizationList.cpp:79-146 | What the commands make of the map, tag by tag: a command with info sets its entry, one without removes it, and other tags stay |
| AuthLists.AscendingIsUpdatable | src/MicroOcpp/Model/Authorization/AuthorizationList.cpp:48-176 | An update of a list without blanked slots misses no command if its tags are in ascending order |
| AuthLists.TidiedRepresents | src/MicroOcpp/Model/Authorization/AuthorizationList.cpp:159-167 | Erasing blanked slots and sorting keeps the map that the list represents |
| AuthorizationLists.FullListRepresents | src/MicroOcpp/Model/Authorization/AuthorizationList.cpp:148-157 | A full update with distinct tags represents the map of its commands |
| AuthDatas.CompactRoundTrip | src/MicroOcpp/Model/Authorization/AuthorizationData.cpp:37-127 | Writing an entry compactly and reading it back gives the same entry, with the omitted status, the parent tag and the expiry date through the timestamp printer and parser |
| AuthDatas.VerboseRoundTripIff | src/MicroOcpp/Model/Authorization/AuthorizationData.cpp:122-126 | The other form gives the same entry if and only if the status is not Accepted, for which it writes Invalid |
| AuthDatas.ReadIsStorable | src/MicroOcpp/Model/Authorization/AuthorizationData.cpp:37-85 | Whatever is read is within the field widths and has an expiry date of 1970 to 2037 or none |
| AuthDatas.StatusRoundTrip | src/MicroOcpp/Model/Authorization/AuthorizationData.cpp:146-181 | Every status is read back from its text |
| AuthDatas.StatusTexts | src/MicroOcpp/Model/Authorization/AuthorizationData.cpp:146-181 | Each status has its own text, and no other text is read as it |
| AuthDatas.ReadMeaning | src/MicroOcpp/Model/Authorization/AuthorizationData.cpp:37-85 | What each field of a read entry is |
| AuthorizationServices.CompactListRoundTrip | src/MicroOcpp/Model/Authorization/AuthorizationList.cpp:112-118 | Reading the compact form of a whole list gives the same list |
| AuthorizationServices.AuthorizationService.constructor | src/MicroOcpp/Model/Authorization/AuthorizationService.cpp:25-41 | After a restart a saved file gives the same entries and the same list version, and a file that is missing or cannot be read an empty list |
| AuthorizationServices.AuthorizationService.LoadLists | src/MicroOcpp/Model/Authorization/AuthorizationService.cpp:47-75 | Loading a saved file restores entries and version; without a readable file nothing changes |
| AuthorizationServices.AuthorizationService.UpdateLocalList | src/MicroOcpp/Model/Authorization/AuthorizationService.cpp:108-132 | For full and differential updates: a refused one leaves the file alone; one that fits succeeds if at least two bytes were written, and is then in the file if and only if all were; if it cannot be stored, the previous list comes back if the file was not touched and can be loaded, and otherwise the new list stays in memory while the file is gone or broken |
| Diagnostics.DiagnosticsReader.Read | src/MicroOcpp/Model/Diagnostics/DiagnosticsService.cpp:394-472 | Each chunk is the next part of the document; 0 is returned if and only if the document is delivered or the next file heading is as long as the whole buffer, which cannot happen from 30 + MO_MAX_PATH_SIZE bytes on |
| Diagnostics.DiagnosticsReader.constructor | src/MicroOcpp/Model/Diagnostics/DiagnosticsService.cpp:394-472 | What a new reader has to deliver is preamble, reader output, postamble, and then the files |
| Diagnostics.DiagnosticsReader.TakeFiles | src/MicroOcpp/Model/Diagnostics/DiagnosticsService.cpp:418-468 | The file loop loses and repeats no byte, and stops early exactly before a heading that does not fit |
| Diagnostics.EveryFileOnce | src/MicroOcpp/Model/Diagnostics/DiagnosticsService.cpp:418-468 | What a new reader has to deliver of the files are their sections, last listed file first |
| Diagnostics.FileIsInDocument | src/MicroOcpp/Model/Diagnostics/DiagnosticsService.cpp:418-468 | Each listed file whose path fits and that is there has its heading and its whole content in the document, between the sections of the files before and behind it, and each other file has nothing |
| Diagnostics.HeadingFits | src/MicroOcpp/Model/Diagnostics/DiagnosticsService.cpp:421-440 | A path that fits its buffer has a heading that fits the heading buffer |
| Diagnostics.LargeBuffersAreNeverBlocked | src/MicroOcpp/Model/Diagnostics/DiagnosticsService.cpp:441-447 | A buffer of at least 30 + MO_MAX_PATH_SIZE bytes is never too small for a heading |
| Ftp.UploadDiagnostics | src/MicroOcpp/Core/FtpMbedTLS.cpp:739-776 | End to end: under any pattern of partial, blocked and failed sends the server has a prefix of the document, all of it exactly if the upload succeeds; it succeeds if no call fails and more calls send something than the document has bytes, however many are blocked in between |
| Ftp.Upload.ProcessData | src/MicroOcpp/Core/FtpMbedTLS.cpp:677-776 | One step loses and repeats no byte; it closes with success exactly when nothing remains |
| Ftp.Upload.Run | src/MicroOcpp/Core/FtpMbedTLS.cpp:779-788 | A whole transfer by repeated steps, with the same promise |
| Ftp.Download.ProcessData | src/MicroOcpp/Core/FtpMbedTLS.cpp:690-738 | The writer gets the received bytes in order, each once; success means it got all of them |
| FileIndexRuns.IndexAgrees | src/MicroOcpp/Core/FilesystemAdapter.cpp:113-187 | After any run of open, write, close and remove with one writer per file, the index has no name twice and gives the existence and, without an open writer, the size of every file as the file system does |
| FileIndexRuns.RemoveAgreesIff | src/MicroOcpp/Core/FilesystemAdapter.cpp:159-170 | A removal leaves the index right if and only if the file system removed the file or had none |
| FileIndexRuns.WrittenFileAgreesIff | src/MicroOcpp/Core/FilesystemAdapter.cpp:39-42 | After a file was written from scratch the whole index is right if and only if its name fits the buffer of the writer, or nothing was written and the cut name is not that of a file that holds something |
| FileIndexRuns.LongNameSpoilsOther | src/MicroOcpp/Core/FilesystemAdapter.cpp:223-233 | The other failing case: the bytes written are recorded as the size of the file that has the cut name |
| FileIndexRuns.CreatedAgreesIff | src/MicroOcpp/Core/FilesystemAdapter.cpp:191-221 | The index built from a complete listing is right if and only if no path is too long |
| FilesystemAdapters.FilesystemAdapterIndex.FtwRoot | src/MicroOcpp/Core/FilesystemAdapter.cpp:172-189 | With any callback: the files are visited in order, each once and but for those removed before their turn, if and only if the callback suits the walk; a callback that removes at most the current file does, and then all files are visited until it fails |
| FileIndexWalk.WalkIsInOrderIff | src/MicroOcpp/Core/FilesystemAdapter.cpp:172-189 | The walk is in order if and only if each call that removes one file removes none that is still to come, and each call that removes several removes only files that are still to come or leaves none of these |
| FileIndexWalk.EachIsVisitedOrRemoved | src/MicroOcpp/Core/FilesystemAdapter.cpp:172-189 | In such a walk no file is visited twice, only removed files are passed over, and what the calls removed is exactly what is missing in the end |
| FileIndexWalk.OwnRemovalSuits | src/MicroOcpp/Core/FilesystemAdapter.cpp:172-189 | Callbacks that remove at most the file that they are called for suit every walk |
| FilesystemAdapters.FilesystemAdapterIndex.OpenForWriting | src/MicroOcpp/Core/FilesystemAdapter.cpp:122-157 | Opening for writing takes the step of a run: the entry exists with size 0 |
| FilesystemAdapters.FilesystemAdapterIndex.Remove | src/MicroOcpp/Core/FilesystemAdapter.cpp:159-170 | Removing takes the step of a run |
| FilesystemAdapters.IndexedFileAdapter.Write | src/MicroOcpp/Core/FilesystemAdapter.cpp:50-54 | Writing takes the step of a run |
| FilesystemAdapters.IndexedFileAdapter.Close | src/MicroOcpp/Core/FilesystemAdapter.cpp:223-233 | The destructor takes the step of a run: it records the bytes written under the name that the writer kept |
| FilesystemAdapters.FilesystemAdapterIndex.Stat | src/MicroOcpp/Core/FilesystemAdapter.cpp:113-120 | Answers with the size of the first entry of that name |
| FilesystemAdapters.FilesystemAdapterIndex.CreateIndex | src/MicroOcpp/Core/FilesystemAdapter.cpp:191-221 | Builds the index of a listing, once |

## Left out

- JournalInvariant.BeginKeepsInv: the whole invariant is kept only if the queue was polled since its front transaction was done, because without it that is false; JournalStale.PolledIffNothingIsLost proves that this is the exact condition.
- JournalRuns.NothingOwedIsSkipped: is for runs with these polls for the same reason, and so are JournalOrder.PollReportsSmallestOwed and MessageOrder.MessageIsSmallestOwed; PollReportsSmallestQueued and MessageIsSmallestQueued hold without them.
- JournalBoot.RebootKeepsInvIff: is for windows of at most half of MAX_TX_CNT plus one, which all runs keep in which files can be removed; RebootKeepsInvAnyLength covers longer ones.
- Time.Timestamp.AddSeconds: requires that the year of the result fits the 16 bit field; otherwise the field overflows.
- Clocks.Clock.Now: requires the same of the current time plus the seconds passed since the last call.
- Clocks.Clock.AdjustPrebootTimestamp: for readings of 1970 to 2037, because it subtracts timestamps.
- Time.Difference: for timestamps of 1970 to 2037 and of 2038-01-01; outside of that range the 16 bit counters can overflow.
- Time.Timestamp.SetTime: strings are read past their terminator as NUL characters; a fraction is accepted if each further character passes the check as the source writes it.
- Metering.MeteringConnector.LoopClockAligned: requires that the seconds since midnight plus the interval are an int; otherwise the sum in the source overflows; sampled (not aligned) meter values and transaction-related samples are not part of this model.
- ProtocolRuns.RequestIsInOnePlace: listeners do not push or fetch requests, and the connection does not call back while it sends.
- AuthorizationLists.AuthorizationList.ReadJson: for a differential update with repeated, empty or too long tags only sortedness and the storage limits are stated.
- FilesystemAdapters.FilesystemAdapterIndex.FtwRoot: callbacks that add files are not part of this model.
- FilesystemAdapters.IndexedFileAdapter.Write: seeking in an open writer is not part of this model.
- ConnectorBase.Connector.BeginTransaction: the local list, reservation and preauthorization checks before an allocation are two inputs, authorized and reserved; the plug input and FreeVend settings of LoopWithFreeVend are inputs too.
- Transactions are records in an arena that are referred to by index, so that the connector, the front pointer and captured listeners share them; writing a record to flash never fails, and the cache of TransactionStore is not part of this model. The give-up of a StopTx is not written to flash by the source, so a reboot at that moment can bring the transaction back.
- Operation numbers are unbounded in the ordering result, which covers runs without reboot.
- JSON documents are values with optional fields; their capacity, parsing errors and memory exhaustion are not modelled. Strings have no NUL characters.
- WebSocket, TLS, the FTP dialogue on the control connection and platform file APIs are results given as parameters.
- Status notifications, authorization and reservation services, remote control, smart charging, OCPP 2.0.1, facade functions and C wrappers.
- Timestamps with milliseconds, boot statistics, firmware updates, random numbers and memory tagging.
