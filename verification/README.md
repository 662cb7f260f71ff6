# gpu-virtmem: schedulers, wire formats and client bookkeeping, verified

gpu-virtmem lets a program use GPUs on other machines. The interposer library in the program packs CUDA
calls into packets, a backend process on each node executes them, and a scheduler beside the backends
time-slices the processes that share a GPU. This project models the parts of it where state, signals and
bytes have to agree, and proves what holds over all inputs, all runs and all interleavings.

| files | what they model |
|---|---|
| `SchedCommons`, `TimeVals` | what the schedulers share |
| `FairShare`, `FairShareSteps`, `FairShareRuns` | the fair-share scheduler: the ring scan of 500 slots, penalties, epochs, registration, paging marks; each step field by field; then whole runs in which the threads of all GPUs interleave step by step |
| `FairShareHandshake`, `FairShareMessages`, `FairShareSafety`, `FairShareAdmission`, `FairShareReturns`, `FairShareCounting`, `FairShareExchange` | how processes come into its table: clients, a semaphore, one listener per GPU over one table; what each step does to FIFOs and signals, who is sent signals, who gets how many slots, whose call returns, what the count counts; and runs for counterexamples |
| `SchedulingSignals` | the signals by which one GPU passes from process to process |
| `LasScheduler` | the least-attained-service scheduler |
| `CfsScheduler`, `CfsTable`, `CfsRounds` | the older scheduler that toggles each process with one signal, with its registration handshake; its arrays; its rounds |
| `Wrappers`, `Wire`, `Codec`, `Sections`, `SectionPasses`, `Packets`, `FatBinary`, `Registration` | the serializers of fat binaries, functions and variables: size pass, pack pass and unpack pass |
| `VarRegistry`, `DeviceTable`, `HandleStack` | the client's table of variables, its global numbering of devices, its stack of fat-cubin handles |
| `Transport`, `Framing`, `RpcServer` | partial transfers over a socket, frames, and the server's remote-call loop |

Objects that the program updates in place are classes over arrays, and every method is proved against a
function of the old state; the theorems about runs are about those functions. Protocols between threads,
processes and signal handlers are state machines whose steps are the atomic actions of the participants.
The packers of whole structs are straight-line code, one call per field; here each is a list of field
formats (`FatBinary.SHAPES`, `Registration.FUNC`, `Registration.VAR`), and one loop over the list writes
through the advancing pointer.

How certain passages of the program are read:

- `l2scheduler/fair_share_sched.c:298` locks the mutex a second time where the critical section ends; it is
  modelled as the unlock. Line 295 indexes with a variable that is never assigned; it is modelled with the
  slot being run. Lines 264-271 test a variable that is never assigned and are dropped.
- The float division of `l2scheduler/fair_share_sched.c:366-368` is integer division to whole microseconds.
- The value of SIGSCHED is a pointer into the scheduler's memory (`l2scheduler/fair_share_sched.c:281`) that the
  backend dereferences in its own (`backend/libl2scheduler.c:116-117`); the model passes the time itself.
- The four parallel arrays of each scheduler are one array of slots.
- Widths are those of x86_64: `int` 4 bytes, `long` and pointers 8 bytes, `rpkt_t` 184 bytes, little-endian.

What turned out false, each with a concrete case and the exact condition under which the code does meet the
property:

- A live pid can get two slots: listeners check the table before an exchange with the process and write it
  after, and each GPU has a listener of its own. `TwoSlots` is a process that asks for two GPUs
  before either listener has read its answer; `SingleSlotIff` gives the condition, `LivePidHasOneSlot` the
  guarantee for each process.
- Two listeners at once can lose a registration (`LostRegistration`), so that the count is the number of
  registrations modulo 500 exactly while one GPU is in use (`CountExactIff`). When that number is a multiple of
  500 the control threads stop (`StallsIff`).
- `fs_add_queue` does not return to a process that is already in the table, and keeps the semaphore
  (`StuckForEver`). It does not return either to a process in no slot for which a SIGSCHED is queued
  (`ShotForEver`), or whose SIGALRM is pending while nobody is registering it any more (`LostNeverReturns`).
  `ReturnsIff` has all cases.
- Mutual exclusion under the fair-share signals fails from the second registration on: putting a new
  process to sleep (`l2scheduler/fair_share_sched.c:164`) makes its handler send an end-of-interval signal
  that ends somebody else's wait. `EveryoneMayExecute` builds a run in which all of r registered processes
  execute at once; `MutualExclusionIff` gives the exact condition.
- SIGSCHED is unblocked but never handled (`backend/libl2scheduler.c:204-210`): it terminates a process that
  does not wait for it. `FatalIff` says which wakes can do that. The surplus signal of one registration makes it
  happen to an executing process (`MayTerminateIff`); without a surplus it happens to a process between the
  signal that ends its slice and its wait (`WindowTerminates`).
- The sum of claims and signals of a GPU falls when that happens, and when SIGVTALRM finds its process
  executing (`ConservedIff`); it grows when SIGPAGE is answered by a process that has just signalled.
- A process can be woken with a timer of zero, which never ends its slice: in a fresh slot up to the first
  recompute (`FirstTimerIsOff`), and with shares of more than 100000 in total (`TimerAfterRecompute`).
- `unpackFatBinary` returns the packet's length only when no symbol is imported (`OneImport`,
  `ReturnIsLengthIff`), because `l_unpackDep` leaves the offset unassigned.
- The count assertion of the debug and elf packers fails exactly for a list with a later elf that has code of
  size 0 (`ElfWithoutCode`, `CountAssertionIff`). By then the list has been written past its section's computed
  size (`FailingListOverruns`); whether also past the buffer, `ElfOverrunsBufferIff` says. Unpacking and packing again reproduces the bytes exactly when no counted entry has
  an empty string (`EmptyName`, `ReencodingFixed`); otherwise the list is cut there (`ReencodedCut`).
- Handles are released as often as obtained exactly when every fat binary had a recognised magic
  (`UnrecognisedMagic`, `ReleasedOnceIff`): any other magic takes a row of the table without filling it.
- The variable search depends on the order in which the hash table is visited exactly when the symbol is not
  a host variable and handles disagree about the name (`NameTwice`, `OrderFreeIff`).
- The least-served process of a GPU can miss high priority, because slot 0 takes part in the minimum even
  when it is dead or belongs to another GPU (`OnlyProcessNotHigh`, `HighIffLeastServed`, `NobodyHighIff`).
- All processes of a GPU get the same allotment, whatever their shares (`SharesOneAndThree`), and an overrun
  can be charged exactly when the shares total at most 200 (`NeverCharged`, `AllotmentIsUniform`).

## Model

| member | source | states |
|---|---|---|
| TimeVals.MacrosAreMicros | l2scheduler/las_scheduler.c:181 | on normalised values timeradd adds microseconds, keeps values normalised, and timercmp orders by microseconds |
| TimeVals.MillisRounds | l2scheduler/fair_share_sched.c:326-330 | the milliseconds in which the scheduler counts are the microseconds of the time, seconds included, rounded to nearest |
| FairShare.Scheduler.ChargeSlot | l2scheduler/fair_share_sched.c:323-346 | in microseconds of the time run and allotted: one slot's penalty becomes the quotient of the two, a waiting slot becomes active, a penalty of 0 becomes -1; other slots keep |
| FairShare.Scheduler.CalculateTimeslice | l2scheduler/fair_share_sched.c:313-373 | the in-place recompute charges every slot of the GPU and hands out allotments by the total of active shares |
| FairShare.Scheduler.ScanSlot | l2scheduler/fair_share_sched.c:235-261 | passes over a foreign or inactive slot, serves one epoch of a penalty, or picks the slot and reads its pid |
| FairShare.Scheduler.WakeProcess | l2scheduler/fair_share_sched.c:286-289 | under the lock tests the state again, and wakes the pid read before only if the slot is still active |
| FairShare.Scheduler.EndSlice | l2scheduler/fair_share_sched.c:291-307 | records paging if the process was woken, and the time in any case; the head moves on |
| FairShare.Scheduler.ControlIteration | l2scheduler/fair_share_sched.c:232-309 | an undisturbed trip round the loop is the three steps one after the other, and dispatches iff the slot under the head is active, its own and unpenalised |
| FairShare.ControlStepVisits | l2scheduler/fair_share_sched.c:232-309 | undisturbed, the three steps are one visit to the slot under the head |
| FairShare.Scheduler.RunPass | l2scheduler/fair_share_sched.c:232-309 | a whole pass dispatches exactly the active, unpenalised slots of the GPU, each once and in order, and recomputes once |
| FairShare.Eligible | l2scheduler/fair_share_sched.c:238-258 | the slots a pass dispatches: all and only those that qualify, in increasing order |
| FairShare.Scheduler.AlreadyAdded | l2scheduler/fair_share_sched.c:72-81 | found iff some slot holds the pid |
| FairShare.Scheduler.RegisterProcess | l2scheduler/fair_share_sched.c:198-209 | undisturbed, the next slot of the ring gets the process with penalty 0 |
| FairShare.RegisterIsAssignments | l2scheduler/fair_share_sched.c:201-208 | the assignments, each of which looks the count up anew, and the increment make up that registration |
| FairShare.Scheduler.HandleAdd | l2scheduler/fair_share_sched.c:133-167 | a listener's turn with no other listener in between: a known pid, or one whose handler failed to install, changes nothing; any other is registered |
| FairShare.Scheduler.HandleRemove | l2scheduler/fair_share_sched.c:168-180 | the first slot with that pid on that GPU is emptied and deactivated |
| FairShare.Scheduler.MarkPaging | l2scheduler/pager.c:134-146 | the victim's active slot, or slot 0 if it has none, becomes non-schedulable |
| FairShare.Scheduler.MarkActive | l2scheduler/pager.c:170-173 | the slot becomes schedulable again |
| FairShareSteps.ChargeMeans | l2scheduler/fair_share_sched.c:323-346 | which of penalty and state charging changes, for each state and penalty of the slot, and that it changes nothing else |
| FairShareSteps.ChargeQuotient | l2scheduler/fair_share_sched.c:326-333 | the epochs charged are the quotient of microseconds run and allotted, each rounded to milliseconds, with 0 written as -1 |
| FairShareSteps.FortyFourEpochs | l2scheduler/fair_share_sched.c:326-333 | 1.1 seconds on 25 milliseconds are 44 epochs |
| FairShareSteps.ShareCounts | l2scheduler/fair_share_sched.c:348-355 | replacing a slot changes the total by the shares of the old and the new one, each counted if active on the GPU |
| FairShareSteps.RecomputeMeans | l2scheduler/fair_share_sched.c:348-370 | every slot is charged, and each active one of the GPU gets the most microseconds that fit `total` times into 100 milliseconds |
| FairShareSteps.ScanMeans | l2scheduler/fair_share_sched.c:235-261 | picks the pid of an active slot of the GPU without a penalty; passes over any other, taking one from its penalty if it is active there |
| FairShareSteps.WakeMeans | l2scheduler/fair_share_sched.c:286-289 | the pid read before is woken if the slot is still active, and otherwise nobody |
| FairShareSteps.EndMeans | l2scheduler/fair_share_sched.c:291-307 | the time is recorded, the slot becomes PAGING only if its process was woken and began to page, the head moves on by one |
| FairShareSteps.AddMeans | l2scheduler/fair_share_sched.c:133-167 | which field of which slot a registration writes |
| FairShareSteps.RemoveMeans | l2scheduler/fair_share_sched.c:168-180 | the first slot with pid and GPU loses pid and state, and nothing else changes |
| FairShareSteps.VictimMeans | l2scheduler/pager.c:134-142 | the victim's first active slot, or slot 0 |
| FairShareSteps.MarkMeans | l2scheduler/pager.c:144-173 | marking changes the state of that slot only |
| FairShareRuns.EachPassVisitsEverySlotOnce | l2scheduler/fair_share_sched.c:232-309 | over any interleaving, n scan steps make n / 500 recomputes and visit every slot once per pass |
| FairShareRuns.RecordMeans | l2scheduler/fair_share_sched.c:232-307 | what one more step of any thread adds to the scan steps, visits, passes, runs and microseconds that the theorems about runs count |
| FairShareRuns.StepOnSlot | l2scheduler/fair_share_sched.c:232-346 | a step does to a slot exactly what the scan and the recompute of its own GPU do; other threads' steps do not reach it |
| FairShareRuns.PenaltyServedExactly | l2scheduler/fair_share_sched.c:247-258 | a process charged k epochs is skipped in exactly the next k passes and dispatched in the one after |
| FairShareRuns.SharesOneAndThree | l2scheduler/fair_share_sched.c:361-370 | shares 1 and 3 get equal allotments |
| FairShareRuns.NeverCharged | l2scheduler/fair_share_sched.c:326-333 | with shares of 201 in total no run is charged, however long |
| FairShareRuns.SettlingKeepsBooks | l2scheduler/fair_share_sched.c:323-346 | charging the run just made restores the balance between time executed and epochs passed or owed |
| FairShareRuns.AmortisedFairness | l2scheduler/fair_share_sched.c:232-346 | over any run and at every end of pass, milliseconds executed plus runs are at most hi per epoch passed or owed, and at least lo per epoch is used or allotted, when the allotment stays in lo..hi |
| FairShareRuns.AmortisedMicros | l2scheduler/fair_share_sched.c:232-346 | the upper bound in microseconds: with allotments from 500 microseconds to half a millisecond below cap, time executed plus 501 microseconds a run is at most cap per epoch passed or owed |
| FairShareRuns.BooksKept | l2scheduler/fair_share_sched.c:232-346 | the two-sided balance behind it, at every moment of a pass |
| FairShareRuns.FirstRunIsFree | l2scheduler/fair_share_sched.c:206 | a newly registered process has penalty 0 until the first recompute, which settles it without charging |
| FairShareRuns.TimerUntilRecompute | l2scheduler/fair_share_sched.c:261 | up to the first recompute a process runs on the timer its slot had before |
| FairShareRuns.TimerAfterRecompute | l2scheduler/fair_share_sched.c:355-369 | after a recompute the timer of an active process is positive iff the shares total at most 100000, or they total 0 and it was positive before |
| FairShareRuns.FirstTimerIsOff | backend/libl2scheduler.c:116-122 | in a fresh slot it is zero |
| FairShareRuns.EpochBudget | l2scheduler/fair_share_sched.c:348-370 | with active shares of at least 1, the allotments handed out on a GPU fit in one epoch |
| FairShareRuns.AllotmentIsUniform | l2scheduler/fair_share_sched.c:361-370 | every active process of the GPU gets EPOCH_LENGTH over the total shares, chargeable iff the total is at most 200 |
| FairShareSafety.StepKeepsSafe | l2scheduler/fair_share_sched.c:128-194 | every step of clients, listeners, control threads and pager keeps the invariant of the handshake |
| FairShareSafety.SignalledOnlyReady | backend/libl2scheduler.c:276-340 | in every interleaving SIGALRM and SIGSCHED go only to processes whose handlers are installed and which reported err == 0 |
| FairShareMessages.AnswersConserved | l2scheduler/fair_share_sched.c:150-157 | in every interleaving the answers listeners have read, then those unread, are what the process has reported, in that order |
| FairShareMessages.AnswersChange | backend/libl2scheduler.c:329-337 | err goes in at the end when a process reports, and comes out in front when the listener that waits for it reads |
| FairShareMessages.OffersChange | l2scheduler/fair_share_sched.c:133-147 | a process is offered a signal number exactly when its request is read and no slot has its pid |
| FairShareMessages.SignalsSent | l2scheduler/fair_share_sched.c:159-165 | SIGALRM is sent when success is read, SIGSCHED when the control thread that has picked the pid finds the slot active, and at no other step |
| FairShareMessages.PhaseChanges | backend/libl2scheduler.c:318-337 | how far a process is in its call, step by step; other participants do not move it |
| FairShareMessages.FifoChanges | l2scheduler/fair_share_sched.c:131-133 | each GPU's requests are read in the order in which they were written |
| FairShareMessages.ListenerChanges | l2scheduler/fair_share_sched.c:133-167 | what each listener waits for or is registering after every step |
| FairShareMessages.TableChanges | l2scheduler/fair_share_sched.c:198-209 | registrations write the table assignment by assignment, removals at once, nobody else pids |
| FairShareAdmission.LivePidHasOneSlot | l2scheduler/fair_share_sched.c:72-81 | in every interleaving a process that has asked for one GPU only has at most one slot |
| FairShareAdmission.TwoSlots | l2scheduler/fair_share_sched.c:133-165 | a run in which a process that asks for both GPUs, before either listener has read its answer, gets two slots |
| FairShareAdmission.SingleSlotIff | l2scheduler/fair_share_sched.c:72-81 | no run in which every process asks for at most n GPUs gives a live pid two slots iff n is at most 1 |
| FairShareReturns.ReturnsIff | backend/libl2scheduler.c:202-221 | once its request is taken, the call of a process whose pid is in a slot, or for which a SIGSCHED is queued, never returns; one whose pid is in no slot and for which no signal is pending may; and if nobody is registering it any more, only then |
| FairShareReturns.ShotForEver | backend/libl2scheduler.c:204-210 | a process for which SIGSCHED was queued while blocked never gets past the call that unblocks it |
| FairShareReturns.ForgottenForEver | backend/libl2scheduler.c:99-101 | nor does one with a pending SIGALRM whose pid nobody has or will write |
| FairShareReturns.LostNeverReturns | l2scheduler/fair_share_sched.c:133-165 | a run that leads there: its registration is lost while its signals are blocked, and it asks again |
| FairShareReturns.StuckForEver | backend/libl2scheduler.c:325-326 | a process whose request was dropped never returns and keeps the semaphore for ever |
| FairShareCounting.CountIsRegistrations | l2scheduler/fair_share_sched.c:208 | while processes ask for one GPU only, the count is the number of registrations modulo 500 |
| FairShareCounting.CountExactIff | l2scheduler/fair_share_sched.c:198-209 | that holds in all runs in which at most n GPUs are asked for iff n is at most 1 |
| FairShareCounting.LostRegistration | l2scheduler/fair_share_sched.c:164-165 | two listeners at once count once and write one slot: a process is asleep, told it was added, and in no slot |
| FairShareCounting.StallsIff | l2scheduler/fair_share_sched.c:235-236 | a control thread looking for a slot does nothing iff the number of registrations is a multiple of 500 |
| SchedulingSignals.StepConserves | backend/libl2scheduler.c:74-199 | every step keeps executing processes plus wakes plus end-of-interval signals minus the wait, but for what registrations and paging in a handler add and what terminations and untimely SIGVTALRM take |
| SchedulingSignals.SchedulableChanges | l2scheduler/fair_share_sched.c:291-296 | an answer to SIGPAGE strikes out the process dispatched last; the pager strikes out the slot it marks and puts the same one back |
| SchedulingSignals.CurrentIsLastDispatched | l2scheduler/fair_share_sched.c:286-296 | in every run, the process that such an answer strikes out is the one of the last dispatch |
| SchedulingSignals.WakesChange | l2scheduler/fair_share_sched.c:286-289 | one SIGSCHED for each dispatch, taken by the wait or with the process |
| SchedulingSignals.ModeChanges | backend/libl2scheduler.c:74-199 | what a process is doing, by its own steps alone |
| SchedulingSignals.SignalsChange | backend/libl2scheduler.c:98-99 | who posts an end-of-interval signal, the hop it is on, and who takes it |
| SchedulingSignals.PageChanges | l2scheduler/pager.c:153-160 | SIGPAGE is pending from the pager's send to the victim's handler |
| SchedulingSignals.VtalrmChanges | l2scheduler/pager.c:165-168 | SIGVTALRM is pending from the pager's send to the victim's handler |
| SchedulingSignals.SignalConservation | l2scheduler/fair_share_sched.c:40-56 | the same over every run, through dispatch, expiry, the way into and out of each handler, redirection, termination and paging |
| SchedulingSignals.ConservedIff | backend/libl2scheduler.c:202-210 | the sum is at most what has been added, with equality iff no wake terminates a process and no SIGVTALRM finds one executing |
| SchedulingSignals.NobodyTerminated | backend/libl2scheduler.c:99-101 | over every run in which wakes are sent only to processes that wait for them, nobody is terminated |
| SchedulingSignals.FatalIff | backend/libl2scheduler.c:99-101 | in a calm state a wake can terminate a process, with no further wake, iff its receiver does not wait, is about to be called away by SIGVTALRM, or has a wake already |
| SchedulingSignals.WakeFindsNobodyExecuting | l2scheduler/fair_share_sched.c:286-289 | without a surplus a wake finds its process not executing and without another wake |
| SchedulingSignals.WindowTerminates | backend/libl2scheduler.c:99-101 | a run without a surplus and with nothing added that terminates a process between its signal and its wait |
| SchedulingSignals.MayTerminateIff | backend/libl2scheduler.c:99-101 | some run with r registrations terminates a process with its own wake iff r is at least 1 |
| SchedulingSignals.SurplusBoundsExecuting | backend/libl2scheduler.c:74-199 | over every run executing processes and signals in flight are at most the surplus, what has been added and the wait |
| SchedulingSignals.ExclusiveWithoutSurplus | l2scheduler/fair_share_sched.c:286-298 | without a surplus and with nothing added at most one process executes, and none while the control thread is not waiting |
| SchedulingSignals.EveryoneMayExecute | l2scheduler/fair_share_sched.c:159-166 | for every r, a run that registers r processes and ends with all of them executing |
| SchedulingSignals.MutualExclusionIff | l2scheduler/fair_share_sched.c:159-166 | no run with r registrations has two processes executing iff r is at most 1 |
| LasScheduler.Threshold | l2scheduler/las_scheduler.c:252-264 | the minimum is attained by slot 0 or a live slot of the GPU, and is below slot 0 and all of those |
| LasScheduler.Scheduler.RunEpoch | l2scheduler/las_scheduler.c:246-276 | one in-place epoch prioritises every live slot of the GPU against that minimum and touches nothing else |
| LasScheduler.Scheduler.HandleAdd | l2scheduler/las_scheduler.c:280-294 | a new pid takes the next slot and keeps the service the slot held |
| LasScheduler.Scheduler.HandleRemove | l2scheduler/las_scheduler.c:147-159 | the first matching slot is emptied |
| LasScheduler.Scheduler.HandleNotify | l2scheduler/las_scheduler.c:169-186 | the first matching slot gains the reported time, others keep theirs |
| LasScheduler.EpochMeans | l2scheduler/las_scheduler.c:252-275 | a live slot of the GPU gets 19 or -20 as it is above the minimum or not; any other slot keeps what it had |
| LasScheduler.AddMeans | l2scheduler/las_scheduler.c:280-294 | which fields of which slot a registration writes |
| LasScheduler.RemoveMeans | l2scheduler/las_scheduler.c:147-159 | the first slot with pid and GPU loses pid and validity, and nothing else changes |
| LasScheduler.NotifyMeans | l2scheduler/las_scheduler.c:169-186 | the microseconds reported are added to the first such slot, and nothing else changes |
| LasScheduler.HighIffLeastServed | l2scheduler/las_scheduler.c:252-275 | after an epoch a live slot is high iff it is least served on its GPU and served no more than slot 0 |
| LasScheduler.NobodyHighIff | l2scheduler/las_scheduler.c:252-275 | nobody is high iff slot 0 is served less than every live slot of the GPU |
| LasScheduler.OnlyProcessNotHigh | l2scheduler/las_scheduler.c:252 | a run from the empty table whose only process on a GPU is not high |
| LasScheduler.SpreadBounded | l2scheduler/las_scheduler.c:246-276 | over any number of epochs the spread of attained service stays within the larger of its initial value and the gain q of one epoch |
| LasScheduler.ServiceAccounted | l2scheduler/las_scheduler.c:169-186 | attained service is the value at registration plus all time reported, always normalised |
| CfsScheduler.StepKeepsInv | l2scheduler/cfs_scheduler.c:75-207 | every step of clients, listener, control thread and signal delivery keeps the invariant |
| CfsScheduler.MutualExclusion | backend/libcfsscheduler.c:46-63 | a registered process has been sent an odd number of signals unless it is in the current slice, so at most one is settled awake |
| CfsScheduler.SlotsBounded | l2scheduler/cfs_scheduler.c:83 | slots never outnumber the real-time signals, far below the size of the arrays |
| CfsScheduler.HandshakeSafety | backend/libcfsscheduler.c:88-136 | no signal is sent before the handler is installed and success reported; each live pid has one slot |
| CfsScheduler.AddMeans | l2scheduler/cfs_scheduler.c:79-93 | a process in no slot is offered the next signal number and waited for; any other request is dropped |
| CfsScheduler.RemoveMeans | l2scheduler/cfs_scheduler.c:113-125 | the first slot with the pid gets pid 0 and becomes invalid, and nothing else changes |
| CfsRounds.RoundRobin | l2scheduler/cfs_scheduler.c:159-207 | while the listener does not step, visit k from slot 0 is to slot k modulo their number, whatever the clients do |
| CfsRounds.SlicesInTurn | l2scheduler/cfs_scheduler.c:172-204 | after v visits the process in slot i has been sent two signals per whole round, and two more if its turn has been; so any two have had equally many slices but for one |
| CfsRounds.OthersGetNothing | l2scheduler/cfs_scheduler.c:164-170 | a process in no valid slot is sent nothing |
| CfsRounds.TwoSignalsEach | l2scheduler/cfs_scheduler.c:159-207 | one round sends exactly two signals to every process in a valid slot and none to others, and ends at slot 0 |
| CfsRounds.ControlGoesOn | l2scheduler/cfs_scheduler.c:159-207 | while there are slots the control thread always has a step to make |
| CfsRounds.FourStepsAVisit | l2scheduler/cfs_scheduler.c:159-207 | a visit takes it at most four steps, so that 4 n steps from slot 0 are a round of n slots or more |
| CfsRounds.SentChanges | l2scheduler/cfs_scheduler.c:172-204 | a signal is sent when success is read and at each end of a slice, to that process, and at no other step |
| CfsRounds.PhaseChanges | backend/libcfsscheduler.c:88-136 | how far a client is in add_queue, step by step |
| CfsTable.ProcessTable.AlreadyAddedTo | l2scheduler/cfs_scheduler.c:45-54 | the search of the whole array finds exactly the pids in use |
| CfsTable.ProcessTable.RegisterProcess | l2scheduler/cfs_scheduler.c:211-219 | appends the slot as the protocol's step does, inside the array in every reachable state |
| CfsTable.ProcessTable.RemoveProcess | l2scheduler/cfs_scheduler.c:113-125 | empties the first slot with the pid as the protocol's step does; all other slots and fields keep |
| CfsTable.ProcessTable.CheckSlot | l2scheduler/cfs_scheduler.c:164-170 | stays at a valid slot and passes over an invalid one, to the next slot or from the last one to the first |
| Wire.LERoundTrip | interposer/libciutils.c:844-845 | a number that fits its width is read back |
| Wire.LEDigit | interposer/libciutils.c:844-845 | byte i is the digit of weight 256 to the power i |
| Wire.DecStrRoundTrip | interposer/libciutils.c:829-903 | a string is read back, "" as NULL, consuming exactly its bytes |
| Wire.PackStr | interposer/libciutils.c:829-855 | writes length and characters at the pointer, advances past them, keeps what precedes |
| Wire.UnpackStr | interposer/libciutils.c:870-903 | reads what the decoder says, and by how many bytes to advance |
| Sections.EntryReads | interposer/libciutils.c:945-1458 | an entry of any kind is read back in normal form, and its size is what the size pass adds |
| Sections.SectionRoundTrip | interposer/libciutils.c:945-1458 | a section is read back in normal form and consumes exactly its own bytes, whatever follows |
| Sections.EntryLayout | interposer/libciutils.c:945-1458 | the bytes of an entry of each kind, in their order |
| Sections.EntryComesBack | interposer/libciutils.c:870-903 | what comes back of each field of an entry |
| Sections.SectionLayout | interposer/libciutils.c:945-973 | the count, then the entries up to the first at which the size pass stops |
| Sections.SectionComesBack | interposer/libciutils.c:998-1013 | NULL iff nothing was counted and the kind is debug, elf or symbol; otherwise the entries counted and a blank terminator |
| Sections.SectionRead | interposer/libciutils.c:998-1013 | the same for any bytes, by the count at their front |
| Sections.PlainComesBack | interposer/libciutils.c:945-1458 | a section without empty strings comes back as it was |
| Sections.SlackMeans | interposer/libciutils.c:313-334 | the size pass exceeds the bytes by 4 for a symbol table that is NULL or starts with a NULL name, and by nothing otherwise |
| Sections.SectionSizeIsLength | interposer/libciutils.c:199-405 | the size pass equals the bytes packed, plus 4 for an empty symbol table |
| Sections.CountAssertionIff | interposer/libciutils.c:1274-1293 | the pack pass of a list passes its count assertion iff no elf with code of size 0 comes after the first entry and before the list stops, unless the first entry is one |
| Sections.FailingListOverruns | interposer/libciutils.c:1274-1293 | a list that fails it has been written past its section's computed size |
| Sections.ElfWithoutCode | interposer/libciutils.c:394 | a list that fails it |
| Sections.EmptyName | interposer/libciutils.c:883-885 | a symbol table that re-encodes differently |
| Sections.ReencodedCut | interposer/libciutils.c:883-885 | sizing and packing an unpacked section gives the original cut at the first entry with an empty string |
| Sections.ReencodingFixedIff | interposer/libciutils.c:883-885 | the bytes are the same iff no counted entry has an empty string |
| SectionPasses.SizeArray | interposer/libciutils.c:199-252 | the loop to the terminator computes size and count |
| SectionPasses.SizeList | interposer/libciutils.c:270-296 | the same for linked lists, which may also end at NULL |
| SectionPasses.PackArray | interposer/libciutils.c:945-973 | writes exactly the bytes of the section behind what precedes |
| SectionPasses.PackList | interposer/libciutils.c:1253-1296 | the same for lists; the count assertion holds and every write stays in the buffer |
| SectionPasses.UnpackSection | interposer/libciutils.c:1307-1366 | reads exactly what the decoder says; NULL iff the count read is 0 and the kind is debug, elf or symbol, otherwise as many entries and a blank terminator |
| Packets.PacketRoundTrip | interposer/libciutils.c:2190-2306 | any list of fields is read back in normal form and consumes its own bytes, whatever follows |
| Packets.PacketSizeIsLength | interposer/libciutils.c:437-497 | the computed size is the length written plus the slack of empty symbol tables |
| Packets.PackPacket | interposer/libciutils.c:1619-1675 | field after field through the advancing pointer writes the packet, given the cached counts |
| Packets.PackPointer | interposer/libciutils.c:1948-1977 | an address and, unless it is NULL, the ints it points to |
| Packets.UnpackPacket | interposer/libciutils.c:1751-1806 | reads the fields, and leaves the last field's offset behind |
| FatBinary.FatBinaryRoundTrip | interposer/libciutils.c:1751-1806 | unpacking a packed binary, whatever slack follows, gives its normal form, with absent ptx and cubin as arrays of a terminator, and reads up to `imported` exactly what was written |
| FatBinary.BinaryLayout | interposer/libciutils.c:1619-1675 | the bytes of each field at its width, in their order, and a count of no dependents |
| FatBinary.BinaryComesBack | interposer/libciutils.c:1751-1806 | what is read back, field by field |
| FatBinary.AbsentComesBack | interposer/libciutils.c:1096-1111 | absent ptx and cubin come back as arrays of a terminator, absent debug, elf and symbols as NULL |
| FatBinary.PlainBinaryRoundTrip | interposer/libciutils.c:1751-1806 | a binary without empty strings comes back as it was |
| FatBinary.BinarySizeIsLength | interposer/libciutils.c:546-562 | getFatRecPktSize is the length written plus 4 for each of exported and imported that is empty |
| FatBinary.ReencodingFixed | interposer/libciutils.c:1589-1604 | an unpacked binary can be packed again without a failed assertion, and gives the same bytes iff no entry packed had an empty string |
| FatBinary.GetFatRecPktSize | interposer/libciutils.c:546-562 | the size, and the entry counts cached for the pack pass |
| FatBinary.PackFatBinary | interposer/libciutils.c:1589-1604 | the cached counts suffice to write exactly the encoded binary |
| FatBinary.Serialize | interposer/libci.c:2780-2791 | a buffer of the computed size holds the packed binary; only slack is left over |
| FatBinary.UnpackFatBinary | interposer/libciutils.c:1751-1806 | reads the binary; the value returned counts `imported` twice |
| FatBinary.ReturnIsLengthIff | interposer/libciutils.c:1551-1552 | the value returned is the packet's length iff no symbol is imported |
| FatBinary.ElfOverrunsBufferIff | interposer/libciutils.c:1274-1293 | an elf list that fails its assertion has been written past the buffer iff what is past its section's computed size exceeds the sizes of all that follows |
| FatBinary.OneImport | interposer/libciutils.c:1551-1552 | a binary with one imported symbol for which it is not |
| FatBinary.FatBinary4RoundTrip | interposer/libciutils.c:1808-1847 | a binary of the 4.0 format is read back, "" as NULL |
| FatBinary.Binary4Layout | interposer/libciutils.c:1705-1742 | the bytes of each field at its width, in their order |
| FatBinary.Serialize4 | interposer/libciutils.c:1705-1742 | the packet of the 4.0 format fills a buffer of the computed size |
| FatBinary.UnpackFatBinary4 | interposer/libciutils.c:1808-1847 | reads the binary, and returns the bytes consumed |
| Registration.FuncRoundTrip | interposer/libciutils.c:2190-2306 | for every combination of NULL pointers the server sees the client's arguments |
| Registration.FuncLayout | interposer/libciutils.c:2190-2249 | the bytes of each argument, in their order |
| Registration.FuncComesBack | interposer/libciutils.c:2260-2306 | argument by argument: NULL where the client had NULL, else what its pointer led to |
| Registration.PackRegFuncArgs | interposer/libciutils.c:2190-2249 | the packet fills a buffer of exactly the computed size |
| Registration.UnpackRegFuncArgs | interposer/libciutils.c:2260-2306 | reads the arguments as the decoder does |
| Registration.VarRoundTrip | interposer/libciutils.c:2365-2417 | the arguments of a variable are read back |
| Registration.VarLayout | interposer/libciutils.c:2308-2363 | the bytes of each argument, in their order |
| Registration.PackRegVar | interposer/libciutils.c:2308-2363 | the packet fills a buffer of exactly the computed size |
| Registration.UnpackRegVar | interposer/libciutils.c:2365-2417 | reads the arguments as the decoder does |
| VarRegistry.LiveIff | interposer/libciutils.c:2802-2839 | the table holds exactly the variables inserted and not removed with their handle since |
| VarRegistry.ArrayInOrder | interposer/libciutils.c:2802-2839 | a handle's array holds those inserts once each, in the order in which they came |
| VarRegistry.FoundMeans | interposer/libciutils.c:2952-2981 | the symbol if it is a registered host variable, else a host variable of that name, else NULL |
| VarRegistry.FoundInHistory | interposer/libciutils.c:2952-2981 | the same in terms of the history of inserts and removes alone |
| VarRegistry.FirstInOrder | interposer/libciutils.c:2966-2973 | of several entries with the name, the first one under the first handle visited is found |
| VarRegistry.OrderFreeIff | interposer/libciutils.c:2966-2973 | the result is independent of the visiting order iff the symbol is NULL or a host variable or the handles agree about the name |
| VarRegistry.NameTwice | interposer/libciutils.c:2966-2973 | two inserts after which it does depend on the order |
| VarRegistry.UniqueNamesAgree | interposer/libci.c:3226-3230 | a name that belongs to one host variable makes the handles agree |
| VarRegistry.Registry.Insert | interposer/libciutils.c:2802-2822 | appends to the handle's array, creating it; NULL handles and values are refused |
| VarRegistry.Registry.Find | interposer/libciutils.c:2952-2981 | the two nested searches compute the specified result |
| DeviceTable.NumberToPair | interposer/libci.c:2914-2923 | number k stands for a device of a node, and cumulative count plus local number is k |
| DeviceTable.PairToNumber | interposer/libci.c:2914-2923 | every device of every node has that number |
| DeviceTable.NumberingIsBijection | interposer/libci.c:2914-2923 | no device has two numbers, and exactly the existing devices have one |
| DeviceTable.Tables.Build | interposer/libci.c:2912-2930 | the loops fill the three tables with that numbering, nodes without devices included |
| HandleStack.Conservation | interposer/libci.c:2938-3053 | rows obtained are rows released plus rows on the stack, after every event |
| HandleStack.NextMeans | interposer/libci.c:2938-2956 | which row and which counter each event changes |
| HandleStack.ConservationAt | interposer/libci.c:3042-3055 | for each node: the handles it has returned are those the calls have carried back to it plus those held for it |
| HandleStack.ReleasedAtIff | interposer/libci.c:3042-3055 | when the counter is 0 again, the calls have carried to each node exactly the handles it returned iff every magic was recognised |
| HandleStack.ReleasedOnceIff | interposer/libci.c:2938-2956 | when the counter is 0 again, each handle has been released exactly once at its own node iff every magic was recognised |
| HandleStack.UnrecognisedMagic | interposer/libci.c:2938-2956 | a registration and unregistration that obtain nothing and release what was in the row |
| HandleStack.TopIsLatestLive | interposer/libci.c:3127-3143 | functions and variables are registered under each node's most recent live handle |
| HandleStack.TopCallIsLatestLive | interposer/libci.c:3127-3143 | the call for a node carries the handle which that node returned for the latest live registration |
| HandleStack.HandleTable.RegisterFatBinary | interposer/libci.c:2938-2956 | fills the next row, or only takes it when the magic is not recognised |
| HandleStack.HandleTable.UnregisterFatBinary | interposer/libci.c:3042-3055 | releases handle i of the top row at node i and pops the row |
| HandleStack.HandleTable.TopCalls | interposer/libci.c:3134-3143 | each node gets its own handle of the top row |
| Transport.Put | remote/connection.c:317-335 | however send splits the bytes, 1 is returned iff all went out in order, else a proper prefix did |
| Transport.Get | remote/connection.c:350-369 | the same for receiving; bytes beyond the prefix received are untouched, in the buffer and in the stream |
| Framing.HeaderRoundTrip | remote/connection.c:30-49 | the header's two numbers are read back |
| Framing.FrameLayout | remote/remote_packet_types.h:20-24 | 4 bytes of packet count, 4 of data size, 184 for each packet, and the data |
| Framing.FramesUnique | remote/remote_packet_types.h:20-24 | equal byte streams have equal frames, so that framing stays in step whatever the contents |
| RpcServer.RepliesWellFormed | backend/backend.c:334-385 | at most one answer per executed frame, each a well-formed frame of one packet |
| RpcServer.ExecutedInOrder | backend/backend.c:306-334 | an increasing map onto the frames with packets: these are executed, once each, in order, and no others |
| RpcServer.StatesInOrder | backend/backend.c:306-334 | each frame with packets is executed in the state the frames before it lead to; others change nothing |
| RpcServer.AnswersInOrder | backend/backend.c:351-385 | an increasing map from the answers onto the executed frames whose clients expect one; each is one frame with the packet and response that the execution returned |
| RpcServer.AlwaysOrNever | backend/backend.c:351-385 | always expected: as many answers as executed frames; never expected: none |
| RpcServer.AnswersRecoverable | backend/backend.c:334-385 | the bytes sent determine the answers |
| RpcServer.Backend.SendCudaPktHdr | remote/connection.c:30-49 | sends the header, or a prefix of it |
| RpcServer.Backend.Execute | backend/backend.c:306-386 | executes the frame once; if its client expects an answer, what is sent is a prefix of the frame with the packet and response returned, and all of it on success; otherwise nothing |
| RpcServer.Backend.ServeNext | backend/backend.c:150-386 | one turn consumes one frame, executes its first packet once, and answers, or stops with nothing executed or only the answer cut |
| RpcServer.Backend.Serve | backend/backend.c:150-387 | over any stream of frames and any partial transfers, frames are executed once and in order and the answers sent are a prefix of those due; with reliable transfers all of them |

## Left out

- CUDA and driver calls, the interposition wrappers and the call stubs: foreign calls of one repeated shape.
- `pkt_execute` and `strm_expects_response` are parameters of the server loop; the packet returned is meant with its two pointers cleared (`backend/backend.c:307-308`). Virtual memory is not modelled.
- Dependents of a fat binary: the packer asserts that there are none (`interposer/libciutils.c:1496-1503`).
- The pager's choice of victims and the requester's page-in (`l2scheduler/pager.c:176-272`).
- Sockets' set-up, files, shared memory, semaphores, fork, malloc failures, printing, the feedback packets.
- Float rounding, overflow of `int`, alignment; negative shares, which `share_unit` could hold.
- Clocks: an elapsed time is a normalised, non-negative timeval.
- FairShare.Scheduler.ControlIteration: is a trip round the loop with nothing in between; `ScanStep`, `WakeStep` and `EndStep` are the steps that runs interleave.
- FairShare.Scheduler.HandleAdd: is a listener's turn with nothing in between; FairShareHandshake has the exchange of messages and all interleavings.
- FairShareSafety.SignalledOnlyReady: writing err and giving up the semaphore are one step, as are reading err and sending SIGALRM, and the entry of the SIGALRM handler up to its wait; SIGPAGE and SIGVTALRM are not modelled there.
- FairShareRuns.AmortisedFairness: starts at the end of a pass with the slot settled, because the run before the first recompute is not charged (FirstRunIsFree).
- SchedulingSignals.SignalConservation: does not model REM_Q. A SIGVTALRM that interrupts the wait in another handler makes that wait fail, which the handler does not notice; the time it then reads is not modelled.
- CfsScheduler.MutualExclusion: each process adds itself at most once; an ADD_Q from a process already in the table blocks it for ever waiting for a signal number, as FairShareReturns.ReturnsIff shows for the newer scheduler.
- CfsScheduler.HandshakeSafety: register_process is one step, so the control thread never sees the counter and the arrays half updated.
- LasScheduler.ServiceAccounted: ends when the ring of registrations comes round to the slot; queries of priority and feedback data are not modelled.
- Sections.SectionRoundTrip: requires the terminator of an array to be there, as the C loops do.
- FatBinary.PackFatBinary: requires lists whose count assertion holds; CountAssertionIff says which those are.
- FatBinary.UnpackFatBinary: the source is a byte sequence long enough for its counts, since the C code has no length to check.
- Registration.PackRegFuncArgs: plain ints travel as their 32-bit patterns; of an unpacked pointer only NULL-ness and the copied ints are kept.
- VarRegistry.Registry.Remove: the hash table is created with the wrong destroy callback (`interposer/libci.c:3194-3198`), and unregistering drops the whole table instead of calling it (`interposer/libci.c:2989`).
- VarRegistry.Registry.Find: a variable's device name is never NULL; strcmp has no answer for one.
- HandleStack.HandleTable.RegisterFatBinary: requires a free row, because the counter has no upper check; the value returned to the caller is never assigned in the program.
- RpcServer.Backend.Serve: requires at most 1024 packets a frame, which the server does not check, and no data behind a header without packets, since the server would take it for the next header.
