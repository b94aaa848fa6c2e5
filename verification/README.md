# SMP T-Kernel: verified models

Dafny models of the parts of SMP T-Kernel whose correctness rests on invariants, with
proofs. `dafny verify dfyconfig.toml` checks everything.

**Scheduling.** `ready_queue_top` chooses ready tasks in order and gives them processors under
affinity masks and dispatch-disabled processors. The table `hist` is an incremental form of
Hall's condition (`Hall`, `Selection`, `History`, `Picking`); the two assignment routines are
`SingleCore` and `MultiCore` (with `Greedy`); `Schedule` says what a schedule promises and
`Scheduler` puts the pieces together. `ReadyQueue`, `ReadyOrder` and `BitOps` are the queues,
the cached `top` and the bitmap below.

**Mutexes.** `MutexState` has the state and its invariant: lists, queues and owners agree,
queues are sorted, no ceiling is broken, and the priority of each task is exactly the most
urgent of its base priority and what its mutexes demand. `MutexSteps` and `Mutexes` show that
every call keeps it; `MutexLaws` says what it means along chains of waits. An assignment of
ranks that falls along each wait stands for the absence of deadlock, which callers must see to.

**Message buffers.** `MessageRing` is the byte ring, `MessageBuffer` the tasks around it.
`WaitQueue` is the wait queue that these, the pools and the mutexes share.

**Memory.** The kernel's pools and the library's allocator share their algorithm. `QueueLinks`
are ring queues link by link and the two-tier free queue built from them; `Areas` is the chain
of areas in pages; `Heap` is what a heap keeps, `Store` the operations on it. `MemoryPool` and
`PoolWaits` are the kernel's pools, of one page, and the tasks that wait for them. `Malloc` is
the library's allocator with its pages and reallocation; `Blocks` and `Pages` say what its calls
do to blocks, contents and pages; `MemCheck` is its checker. Headers, links and contents share
one memory (`Memory`): each operation writes the headers and links that the code writes, and
that these spare the blocks is proved.

**Multi-lock.** `EventFlag` is the event flag; `MultiLock` is the lock as a state machine of
atomic steps, with theorems about every interleaving.

**Time.** `Timers` has the queue of timed events and the times of cyclic handlers.

Code that updates its data in place is modelled by methods and classes, proved against
functions and predicates on values; the laws are lemmas about those.

## Model

| member | source | states |
|---|---|---|
| Scheduler.ReadyQueueTop | kernel/tkernel/smp_src/ready_queue.c:102-213 | For every ready queue, affinity, set of dispatch-disabled processors and number of processors the schedule is proper: ready tasks only, each at most once, on a processor its affinity allows; the running task of every dispatch-disabled processor, if ready, keeps that processor, which gets no other; and if all chosen tasks are running, and one of them on every processor open to them, nobody moves. With at most four processors (or when no chosen task is bound to several but not all of them) it also leaves no ready task out unless all processors it could use run earlier tasks, and runs as many of the first k ready tasks as any schedule could, for every k. When no chosen task is bound to several but not all processors, an unbound running task stays where it is unless a task is bound to that processor alone, and the others get the free enabled processors from the first on in ready order; otherwise the schedule is what the least-degree search comes to. |
| Schedules.ScheduleIsWorkConserving | kernel/tkernel/smp_src/ready_queue.c:137-196 | A ready task that does not run could only use enabled processors that run tasks earlier in ready order. |
| Schedules.ScheduleIsMaximal | kernel/tkernel/smp_src/ready_queue.c:137-196 | For every k, no placement of any subset of the first k ready tasks is larger than what runs of them. |
| Schedules.ScheduleKeepsRunning | kernel/tkernel/smp_src/ready_queue.c:142-148 | A dispatch-disabled processor whose running task is ready keeps it and gets no other task, also when not all accepted tasks could be placed. |
| Schedules.ScheduleIsProper | kernel/tkernel/smp_src/ready_queue.c:198-212 | A placement of accepted tasks gives a schedule with no task twice and all affinities respected. |
| Schedules.HeldIsChosen | kernel/tkernel/smp_src/ready_queue.c:142-148 | A task whose processor may not switch is never refused by the selection, whatever precedes it. |
| Hall.HallTheorem | kernel/tkernel/smp_src/ready_queue.c:166-190 | Tasks can be placed one to one within their masks if and only if every group of them reaches at least as many processors as it has members. |
| Selection.RefusedIsOvertakenByEarlier | kernel/tkernel/smp_src/ready_queue.c:163-190 | However the accepted tasks are placed, each processor open to a refused task is given to a task accepted before it. |
| Selection.SelectionIsMaximum | kernel/tkernel/smp_src/ready_queue.c:163-190 | Accepting greedily in ready order is optimal: no placeable set among the first k positions is larger than the accepted ones among them. |
| Selection.ChosenHall | kernel/tkernel/smp_src/ready_queue.c:163-190 | The accepted tasks always satisfy the group condition. |
| Selection.RefusalsShareATightGroup | kernel/tkernel/smp_src/ready_queue.c:166-180 | All refusals so far are explained by one group of accepted tasks that fills all the processors it reaches, and these include every processor of every refused task. |
| History.CheckIsHall | kernel/tkernel/smp_src/ready_queue.c:163-190 | The table test passes for a candidate if and only if the accepted tasks and the candidate together satisfy the group condition, although all-processor tasks are not in the table. |
| History.HistSound | kernel/tkernel/smp_src/ready_queue.c:166-190 | Every entry of the table is the union of masks and the size of a group of accepted tasks not bound to all processors. |
| History.HistComplete | kernel/tkernel/smp_src/ready_queue.c:166-190 | Every non-empty group of such tasks has its entry. |
| History.HistSize | kernel/tkernel/smp_src/ready_queue.c:166-190 | The table has exactly two to the number of such tasks, less one, entries. |
| History.WideNewcomerFits | kernel/tkernel/smp_src/ready_queue.c:163-163 | A candidate open to all processors needs no test while fewer tasks are accepted than there are processors. |
| History.CheckAndRecord | kernel/tkernel/smp_src/ready_queue.c:166-190 | The loop over the table accepts exactly when all entries joined with the candidate pass, and then leaves the table of the longer list, in one pass. |
| Picking.Decide | kernel/tkernel/smp_src/ready_queue.c:140-196 | Testing a candidate against the accepted tasks only is the decision of the greedy selection on the whole ready order. |
| Picking.FullIsFinal | kernel/tkernel/smp_src/ready_queue.c:139-140 | Once all processors have a task accepted, no later task would be. |
| Picking.RoomInTable | kernel/tkernel/smp_src/ready_queue.c:181-190 | Entries are never written past the end of a table of two to the number of processors less one. |
| Greedy.LeastDegreePick | kernel/tkernel/smp_src/ready_queue.c:279-327 | With at most four waiting processors, giving a task a processor such that the task or the processor has the least degree keeps all remaining tasks placeable. |
| Greedy.DegreeOnePick | kernel/tkernel/smp_src/ready_queue.c:283-327 | A pick at degree one never destroys a complete placement, for any number of processors. |
| MultiCore.FiveProcessorsCanStrand | kernel/tkernel/smp_src/ready_queue.c:283-327 | Four is the limit: five placeable tasks on five processors, of which one is running, such that whatever the search can do on this board is to leave that task where it runs, at the least degree there is, and this strands one of the others. |
| MultiCore.AloneAreServed | kernel/tkernel/smp_src/ready_queue.c:283-327 | However many processors there are, a task with one processor that no other accepted task may use is placed. |
| MultiCore.MultiCoreAssign | kernel/tkernel/smp_src/ready_queue.c:271-333 | Ends for any number of processors; what it places is placed once, within the masks; a task that alone has its processor is placed; on up to four processors a placeable family is placed completely, whatever the running tasks prefer. Each round makes the first pick in the order of the search: the least degree, running tasks before others, then by column and row; and if all accepted tasks are running, one of them on every processor open to them, nobody moves. |
| MultiCore.PickKeepsHall | kernel/tkernel/smp_src/ready_queue.c:283-327 | Every pick of the search on up to four processors keeps the remaining tasks placeable on the remaining processors, although counters of taken processors are stale. |
| MultiCore.TryAssign | kernel/tkernel/smp_src/ready_queue.c:90-100 | Assigns exactly when the processor is open to the task, free, and the preferred task matches, and then removes the task and the processor from masks and counters; otherwise changes nothing. |
| MultiCore.Search | kernel/tkernel/smp_src/ready_queue.c:283-327 | Finds the first of all possible picks in the order of the loops, and stops only if there is none. |
| MultiCore.FirstPickMeans | kernel/tkernel/smp_src/ready_queue.c:283-327 | That pick is of the least degree, and leaves a task where it is running if any pick of that degree does. |
| MultiCore.SettledPick | kernel/tkernel/smp_src/ready_queue.c:283-327 | As long as all tasks placed are where they were running, and all processors open to accepted tasks run accepted tasks, the next pick moves nobody, for any number of processors. |
| SingleCore.StayingPut | kernel/tkernel/smp_src/ready_queue.c:225-250 | After the three passes every unbound running task whose processor nobody else is bound to is where it was. |
| Scheduler.SettledSingle | kernel/tkernel/smp_src/ready_queue.c:215-269 | The same for the single-mask path: if all chosen tasks are running, and one of them on every processor open to them, nobody moves. |
| MultiCore.NothingLeft | kernel/tkernel/smp_src/ready_queue.c:283-327 | If the search finds nothing and the remaining tasks were placeable, no task remains. |
| SingleCore.SingleCoreAssign | kernel/tkernel/smp_src/ready_queue.c:215-269 | When every accepted task is bound to one processor or to all, each is placed exactly once where it may run; an unbound task that is running stays, unless an accepted task is bound to its processor alone; and the rest get the enabled processors that are over, from the first on, in ready order. |
| SingleCore.AssignPinned | kernel/tkernel/smp_src/ready_queue.c:225-238 | Every task bound to one processor gets it. |
| SingleCore.AssignRunning | kernel/tkernel/smp_src/ready_queue.c:240-250 | Every task that is running on a processor still free stays there; after that no task without a processor is held by one. |
| SingleCore.AssignRest | kernel/tkernel/smp_src/ready_queue.c:252-263 | Every remaining task finds an enabled free processor, the least that is neither used by the passes before nor given to a task before it. |
| Scheduler.Select | kernel/tkernel/smp_src/ready_queue.c:137-196 | The loop with its retries, table and shifting window accepts exactly the tasks of the greedy selection on the whole ready order and fills masks and counters for them. |
| Scheduler.TaskBit | kernel/tkernel/smp_src/ready_queue.c:142-163 | Computes the set of processors open to a task: its own one if dispatching is disabled there, else its affinity without the disabled ones. |
| Scheduler.NextCandidate | kernel/tkernel/smp_src/ready_queue.c:154-161 | Dropping a candidate shifts the window of the ready order by one. |
| Scheduler.AnySplit | kernel/tkernel/smp_src/ready_queue.c:198-204 | The path is chosen by whether some accepted task is bound to several but not all processors. |
| ReadyQueues.ReadyQueue.Insert | kernel/tkernel/smp_src/ready_queue.h:122-141 | The task becomes last of its priority in the ready order; `top` is again the first tasks of the order and the bitmap marks the non-empty priorities. |
| ReadyQueues.ReadyQueue.InsertTop | kernel/tkernel/smp_src/ready_queue.h:166-182 | The task becomes first of its priority in the ready order; `top` and bitmap follow. |
| ReadyQueues.ReadyQueue.Delete | kernel/tkernel/smp_src/ready_queue.h:236-262 | The task leaves the ready order, or, if it waits for a kernel lock, only that list; `top` and bitmap follow, also with one processor, where the successor is read through the unlinked node. |
| ReadyQueues.ReadyQueue.ChangePriority | kernel/tkernel/smp_src/task.c:321-330 | A READY task with a new priority goes to the end of the queue of that priority, `top` and bitmap follow, and a wait for a kernel lock is over. |
| ReadyQueues.ReadyQueue.Rotate | kernel/tkernel/smp_src/ready_queue.h:264-286 | The first task of a priority becomes the last of it; `top` follows. |
| ReadyQueues.ReadyQueue.MoveLast | kernel/tkernel/smp_src/ready_queue.h:288-304 | A task becomes the last of its priority unless it is that already, which is reported. |
| ReadyQueues.ReadyQueue.GetNextTcb | kernel/tkernel/smp_src/ready_queue.h:184-202 | Returns the immediate successor in ready order, over the bitmap when the priority is exhausted, even for a task that has just been unlinked. |
| ReadyQueues.ReadyQueue.UpdateTopWhenRemove | kernel/tkernel/smp_src/ready_queue.h:207-234 | `top` is the front of the order without the task. |
| ReadyQueues.UpdateTopWhenInsert | kernel/tkernel/smp_src/ready_queue.h:96-120 | `top` is the front of the order with the task behind all that are no less urgent. |
| ReadyQueues.UpdateTopWhenInsertTop | kernel/tkernel/smp_src/ready_queue.h:143-164 | `top` is the front of the order with the task before all that are no more urgent. |
| ReadyOrder.NextQueue | kernel/tkernel/smp_src/ready_queue.h:189-200 | The first set bit behind a priority leads to the first task behind that priority's stretch of the order. |
| ReadyOrder.OnceInOrder | kernel/tkernel/smp_src/ready_queue.h:122-304 | No task occurs twice in the order. |
| ReadyOrder.PlaceByPriority | kernel/tkernel/smp_src/ready_queue.h:96-120 | The place of a task in the concatenated queues is its place by priority. |
| BitOps.BitSearch1 | kernel/tstdlib/bitop.c:137-180 | Returns the index, relative to the offset, of the first set bit below the width, or -1, as a bit by bit scan would, reading only bytes that the range touches. |
| BitOps.BitSearch0 | kernel/tstdlib/bitop.c:90-134 | Returns the index, relative to the offset, of the first clear bit below the width, or -1, as a bit by bit scan would. |
| BitOps.BitSet | kernel/tstdlib/bitop.c:55-70 | Sets the one bit and leaves all others. |
| BitOps.BitClr | kernel/tstdlib/bitop.c:37-52 | Clears the one bit and leaves all others. |
| BitOps.FirstMatchIsUnique | kernel/tstdlib/bitop.c:90-180 | The result of a search is determined by its description. |
| Mutexes.Kernel.ChangeTaskPriority | kernel/tkernel/smp_src/task.c:317-341 | For priorities and wait queues: the task has its new priority, it stands in its wait queue where its new priority puts it, behind its equals, and so does everybody whose priority changed along the chain of owners, all others as before, and every task that was settled still has exactly the priority the protocol demands, however far the change travelled along owners; only tasks of lower rank and their queues are touched, so the recursion ends. The move of a READY task is ReadyQueue.ChangePriority. |
| Mutexes.Kernel.MtxChgPri | kernel/tkernel/smp_src/mutex.c:265-286 | The hook of a priority change: raises the owner, recomputes it when it may have had its priority from this waiter, or leaves it, and in each case the owner ends with the right priority, and the waiter stands behind all that are no less urgent and before all that are less. |
| Mutexes.Kernel.ReleaseMutex | kernel/tkernel/smp_src/mutex.c:110-152 | The mutex leaves the list and the task ends with the most urgent of its base priority and what the rest demands; wait queues change only where a priority did, and there by the rule. |
| Mutexes.Kernel.LeastDemand | kernel/tkernel/smp_src/mutex.c:118-146 | The loop computes that minimum, although `pri` keeps its value from one mutex to the next. |
| MutexState.LeastOfStep | kernel/tkernel/smp_src/mutex.c:122-146 | Why the left-over `pri` does no harm: it is never below the minimum so far. |
| Mutexes.Kernel.LocMtx | kernel/tkernel/smp_src/mutex.c:465-556 | Refuses the owner and ceiling violations and changes nothing then; takes a free mutex and is raised to its ceiling; or raises the owner, queues by the rule of the attribute, and waits, other queues changing only where the priority of a waiting owner did. The invariant is kept. |
| Mutexes.Kernel.UnlMtx | kernel/tkernel/smp_src/mutex.c:561-619 | Only the owner can unlock; the mutex goes to the first waiter or to nobody; all other wait queues change only where the priority of a waiting task did, and there by the rule; the invariant is kept. |
| Mutexes.Kernel.PassOn | kernel/tkernel/smp_src/mutex.c:594-613 | Handing over: owner, list, queue and wait state change together, the new owner is raised to the ceiling if needed. |
| Mutexes.Kernel.ReleaseWait | kernel/tkernel/smp_src/wait.c:60-76 | Timeout and forced release keep the invariant and disturb no queue of a mutex the task itself owns; all others keep their order, but for owners whose priority changed. |
| Mutexes.Kernel.MtxRelWai | kernel/tkernel/smp_src/mutex.c:292-305 | The owner is recomputed exactly when it may have had its priority from the leaving task. |
| Mutexes.Kernel.DelMtx | kernel/tkernel/smp_src/mutex.c:420-459 | Deletion takes the mutex from its owner, releases all its waiters, leaves all other queues as they are, but for owners whose priority changed, and keeps the invariant. |
| Mutexes.Kernel.ChgPri | kernel/tkernel/smp_src/task_manage.c:538-586 | Refused if and only if a ceiling the task holds or waits for would be broken; otherwise the base priority is the new one and all priorities are right again, the task stands behind its equals in the queue it waits in, and so do the owners whose priority changed. |
| Mutexes.Kernel.ChgPriMutex | kernel/tkernel/smp_src/mutex.c:212-259 | Computes the resulting priority, and refuses exactly in the case above, again with a left-over `pri`. |
| Mutexes.Kernel.Terminate | kernel/tkernel/smp_src/task_manage.c:373-395 | The task ends with its initial priority, nothing held and nothing waited for; each of its mutexes belongs to the task that was first in its queue, the others waiting in the same order; queues elsewhere lose the task and nothing else changes in them, but for owners whose priority changed. |
| Mutexes.Kernel.SignalAllMutex | kernel/tkernel/smp_src/mutex.c:165-199 | All mutexes of the task are handed over, one after the other. |
| Mutexes.Kernel.InsertTpri | kernel/tkernel/smp_src/wait.h:79-97 | Insertion after all that are no less urgent and before all that are less. |
| MutexState.OrderlyThen | kernel/tkernel/smp_src/mutex.c:265-286 | A change that travels on to the owner leaves every wait queue on the way in order: whoever got a new priority stands behind its equals, the others as before. |
| MutexState.ReachedRaise | kernel/tkernel/smp_src/mutex.c:273-279 | Raising the owner to the waiter's priority settles it. |
| MutexState.OwnerUnaffected | kernel/tkernel/smp_src/mutex.c:273-285 | An owner whose priority was not the old priority of the waiter needs no change. |
| MutexSteps.HandedFixed | kernel/tkernel/smp_src/mutex.c:594-613 | After a hand-over only the new owner may need to be raised, and then exactly to the ceiling. |
| MutexLaws.PriorityIsTheMostUrgentCause | kernel/tkernel/smp_src/mutex.c:103-108 | In every reachable state the priority of a task is the least of the base priorities and held ceilings of all tasks that a chain of inheritance waits connects with it: no priority inversion, and no priority without a cause. |
| MutexLaws.NoInversion | kernel/tkernel/smp_src/mutex.c:271-279 | Whoever stands at the end of a chain of waits runs at least as urgently as anything its first task asks for. |
| MutexLaws.HasACause | kernel/tkernel/smp_src/mutex.c:103-108 | Some task on a chain to t asks for exactly the priority of t. |
| MutexLaws.PrioritiesAreDetermined | kernel/tkernel/smp_src/mutex.c:110-305 | Two reachable states with the same owners, lists, waits, base priorities and ceilings have the same priorities: history leaves no trace. |
| MultiLock.StepKeepsInv | lib/libtk/smp_src/fastmlock.c:67-112 | Each atomic step of locking and unlocking keeps: a bit is set exactly when one task has the lock; the counter is the number of tasks inside; the flag's queue is the sleeping tasks; no task sleeps while its bit is latched; no wakeup is lost. |
| MultiLock.NextStep | lib/libtk/smp_src/fastmlock.c:73-112 | In every run each task makes its steps in the order of the program: after a timeout, after polling in vain and after finding the bit clear it decrements the counter; it waits exactly after finding the bit set, and tries again only after the flag had its bit or was set; it signals exactly after reading a counter that is not zero. A bit of the flag is used up by one wait. |
| MultiLock.CallEnds | lib/libtk/smp_src/fastmlock.c:73-93 | In every run, a call of MLockTmo leaves what the task has as it was until the decrement, and then the task has the lock if and only if its last step was the bit operation, which found the bit clear; otherwise its wait timed out or it polled in vain, and it has what it had. |
| MultiLock.HeldOnlyByTaking | lib/libtk/smp_src/fastmlock.c:73-93 | In every run a task comes to have a lock number only by such a call. |
| MultiLock.StepKeepsOrder | lib/libtk/smp_src/fastmlock.c:67-112 | No step lets one sleeping task overtake another, but for a change of its own priority. |
| MultiLock.MutualExclusion | lib/libtk/smp_src/fastmlock.c:67-112 | In every interleaving of any number of tasks no two have the same lock number. |
| MultiLock.NobodySleepsForever | lib/libtk/smp_src/fastmlock.c:67-112 | In every interleaving, when nothing is under way any more, whoever sleeps on a lock does so because a task has it. |
| MultiLock.ZeroMeansNobody | lib/libtk/smp_src/fastmlock.c:103-112 | A counter of zero means that nobody sleeps or is about to. |
| MultiLock.FreeLockIsTaken | lib/libtk/smp_src/fastmlock.c:67-80 | The bit operation takes the lock if and only if nobody has it. |
| MultiLock.SignalAfter | kernel/tkernel/smp_src/eventflag.c:269-298 | Setting a lock's bit wakes exactly the first task that sleeps on it, or leaves the bit latched. |
| EventFlags.SweptIsQuiet | kernel/tkernel/smp_src/eventflag.c:269-298 | After a flag is set no waiting task could be released, for every mix of modes, although the search stops early and goes on after bits were cleared. |
| EventFlags.SweptKeepsAll | kernel/tkernel/smp_src/eventflag.c:269-298 | Each waiter is released, with a pattern that meets its condition, or is still waiting. |
| EventFlags.EventFlag.SetFlg | kernel/tkernel/smp_src/eventflag.c:269-298 | The tasks come up in queue order. Each released task saw the flag's bits without those that earlier released ones cleared, and found all the bits it waits for, or with TWF_ORW at least one; each that is left misses one, or with TWF_ORW all, both of what there was at its turn and of what is left; a task that clears everything is the last. |
| EventFlags.SweptInTurn | kernel/tkernel/smp_src/eventflag.c:269-298 | The places of the released tasks and of those left part the queue, each in its order, and nobody is left who had a match at its turn. |
| EventFlags.SweptMeans | kernel/tkernel/smp_src/eventflag.c:88-95 | The release condition in terms of bits, for those released and those left. |
| EventFlags.EventFlag.WaiFlg | kernel/tkernel/smp_src/eventflag.c:339-392 | Refuses an empty pattern, and a second waiter where only one is admitted; otherwise the task is served exactly if the flag has all the bits it waits for, or with TWF_ORW one of them, and then all bits are cleared with TWF_CLR, those waited for with TWF_BITCLR, none otherwise; else it is told to come back, or queued last or by its priority as the attribute says. |
| EventFlags.EventFlag.ChgPri | kernel/tkernel/smp_src/eventflag.c:100-112 | A waiting task with a new priority is placed anew and the queue is sorted again. |
| EventFlags.SweptOrdered | kernel/tkernel/smp_src/eventflag.c:269-298 | Whoever is left by a sweep waits in the same order, sorted by priority if the queue was. |
| EventFlags.EventFlag.ClrFlg | kernel/tkernel/smp_src/eventflag.c:309-333 | Clearing bits releases nobody and nobody should be. |
| MessageRing.Ring.MsgToMbf | kernel/tkernel/smp_src/messagebuf.c:129-156 | The bytes of a message that passes the test are appended to the stored messages, also when header or body go round the end; `tail` stays ahead of `head` by the used space, modulo the size. |
| MessageRing.Ring.MbfToMsg | kernel/tkernel/smp_src/messagebuf.c:162-192 | The oldest message comes out unchanged and leaves the ring. |
| MessageRing.UnroundedTestSuffices | kernel/tkernel/smp_src/messagebuf.c:113-116 | The test without rounding accepts exactly the messages whose rounded space is free. |
| MessageRing.Appended | kernel/tkernel/smp_src/messagebuf.c:129-156 | Writing behind the used part leaves all stored messages as they are. |
| MessageRing.StoredShift | kernel/tkernel/smp_src/messagebuf.c:162-192 | The remaining messages are stored from the new head on. |
| MessageRing.HeaderRoundTrip | kernel/tkernel/smp_src/messagebuf.c:102-104 | A size written as a header is read back. |
| MessageBuffers.MessageBuffer.Snd | kernel/tkernel/smp_src/messagebuf.c:451-475 | Hands the message to the first waiting receiver; else stores it exactly if the sender would be first and header and rounded message fit in behind those stored; else queues the sender; in a buffer without priorities the message always goes to the end of one first-in first-out queue made of the ring and the waiting senders. |
| MessageBuffers.MessageBuffer.Rcv | kernel/tkernel/smp_src/messagebuf.c:514-542 | Receives exactly the first of the messages on their way, whether it was in the ring or still with a sender, also when it is larger than the ring; waits exactly when there is none. |
| MessageBuffers.MessageBuffer.TakeFirst | kernel/tkernel/smp_src/messagebuf.c:514-530 | Both branches that find a message return the first one and let further senders in. |
| MessageBuffers.MessageBuffer.Wakeup | kernel/tkernel/smp_src/messagebuf.c:200-216 | Senders are let in in order until the first cannot store; nothing overtakes. |
| MessageBuffers.MessageBuffer.NoRoomForFirst | kernel/tkernel/smp_src/messagebuf.c:113-116 | Between two calls the message of the first waiting sender does not fit in behind those stored. |
| MessageBuffers.MessageBuffer.ReleaseSender | kernel/tkernel/smp_src/messagebuf.c:239-242 | A sender that gives up takes its own message only, and the next ones are let in; those that still wait are the last ones of the queue as it was. |
| WaitQueues.QueueInsertTpri | kernel/tkernel/smp_src/wait.h:79-97 | The place found is behind all that are no less urgent and before all that are less urgent. |
| WaitQueues.Join | kernel/tkernel/smp_src/wait.c:156-167 | A waiting task goes to the end of the queue, or, with TA_TPRI, to that place; it is first exactly if the test for the top of the queue said so, and the queue stays sorted. |
| MessageBuffers.MessageBuffer.ChgPri | kernel/tkernel/smp_src/messagebuf.c:221-234 | A sender with a new priority is placed anew and the queue is served. |
| MemoryPools.Pool.GetBlk | kernel/tkernel/smp_src/mempool.c:264-292 | Takes the smallest free area that is large enough, cut down if the rest can stand alone; fails exactly when no free area is large enough, and then changes nothing. No header or link that is written lies in a block: all contents are preserved. |
| MemoryPools.Pool.RelBlk | kernel/tkernel/smp_src/mempool.c:297-326 | Joins the block with its free neighbours; refuses an area that is not in use. The pool stays tiled, no two neighbours are free, the free queue has exactly the free areas, and the content of all other blocks is preserved. |
| Heaps.GetThenRelease | kernel/tkernel/smp_src/mempool.c:264-326 | Giving back a block that was just taken restores all areas. |
| Heaps.LiveBlocksStay | kernel/tkernel/smp_src/mempool.c:264-326 | Blocks in use are neither moved nor resized by taking or giving back others. |
| Stores.Store.SearchFreeArea | kernel/tkernel/smp_src/mempool.c:152-180 | Both directions of the search return the first size that is large enough. |
| Areas.ClosestIsUnique | kernel/tkernel/smp_src/mempool.c:152-180 | There is only one such place, so the direction makes no difference. |
| Areas.ClosestIsSmallest | kernel/tkernel/smp_src/mempool.c:146-151 | It is the smallest free area that is large enough, or none is. |
| Stores.Store.AppendFreeArea | kernel/tkernel/smp_src/mempool.c:199-219 | The free queue stays sorted by size with one ring for each size. |
| Stores.Store.RemoveFreeQue | kernel/tkernel/smp_src/mempool.c:224-236 | The four link operations take any area out of the two-tier queue; the next of its ring takes the place of a first one. |
| QueueLinks.TakeAny | kernel/tkernel/smp_src/mempool.c:224-236 | On the level of links: whatever the place of an area, the links afterwards represent the queue without it. |
| QueueLinks.TakeFirst | kernel/tkernel/smp_src/mempool.c:226-233 | The promotion of the next area of a ring, link by link. |
| QueueLinks.PutInRing | kernel/tkernel/smp_src/mempool.c:212-218 | Registering an area of a size that is there. |
| QueueLinks.PutAlone | kernel/tkernel/smp_src/mempool.c:212-218 | Registering an area of a new size. |
| QueueLinks.InsertIntoRing | include/sys/queue.h:59-65 | Insertion before a node of a ring gives the ring with the new node and touches no other. |
| QueueLinks.RemoveFromRing | include/sys/queue.h:72-78 | Removal from a ring gives the ring without the node and touches no other. |
| Areas.InsertKeepsChain | kernel/tkernel/smp_src/mempool.c:242-248 | Cutting an area keeps the areas contiguous. |
| Areas.RemoveKeepsChain | kernel/tkernel/smp_src/mempool.c:253-257 | Joining two areas keeps the areas contiguous. |
| Stores.Store.MaxFreeSize | kernel/tkernel/smp_src/mempool.c:137-143 | The last ring has the largest free areas. |
| PoolWaits.MemoryPool.Wakeup | kernel/tkernel/smp_src/mempool.c:358-382 | Waiting tasks are served in order, each with a block of its own that was not in use, cut from the smallest free area that is large enough then, until the first cannot be; all blocks in use stay in use with their sizes and no others come into use. |
| PoolWaits.MemoryPool.GetMpl | kernel/tkernel/smp_src/mempool.c:578-635 | Served exactly if nobody is before it and a free area is large enough; otherwise waits in its place or is told to come back. The first waiting task can never be served. |
| PoolWaits.MemoryPool.RelMpl | kernel/tkernel/smp_src/mempool.c:640-679 | Refuses addresses outside the pool and areas not in use, and then nothing changes; else the block is given back, waiting tasks are served as above, perhaps with its space, and all other blocks in use stay so. |
| PoolWaits.MemoryPool.ReleaseWaiter | kernel/tkernel/smp_src/mempool.c:405-408 | When a waiting task gives up, those behind it are served if they can be, with blocks of their own that were not in use. |
| PoolWaits.MemoryPool.ChgPri | kernel/tkernel/smp_src/mempool.c:387-400 | The task is placed by its new priority and the new order is served at once, with blocks of their own that were not in use. |
| Stores.Store.Allocate | lib/libtk/src/memalloc.c:195-213 | What is over is cut off if it can stand alone, and registered; everything stays in order. |
| Stores.Store.Join | kernel/tkernel/smp_src/mempool.c:307-320 | A block that is given back joins its free neighbours, whichever of them are free. |
| Areas.PageKeepsChain | lib/libtk/src/memalloc.c:166-190 | A new page behind the head keeps the areas in order, page by page. |
| Areas.UnpageKeepsChain | lib/libtk/src/memalloc.c:385-390 | So does taking out a page that is one free area; the flags of tops and ends are right again. |
| Malloc.Allocator.Alloc | lib/libtk/src/memalloc.c:220-257 | A block of the rounded size, but for a rest too small to stand alone, cut from the smallest free area that is large enough, or from a new page of the least number of pages if there is none; no other block is touched and all contents are preserved by the headers and links that are written; fails exactly when nothing is asked for, or no free area is large enough and there is no new page; then nothing has changed. |
| Malloc.Allocator.NewPage | lib/libtk/src/memalloc.c:166-190 | The page is large enough and its one area is set aside for the block. |
| Malloc.PageIsLargeEnough | lib/libtk/src/memalloc.c:42-45 | The page count leaves room for the block and both headers, and one page less would not. |
| Malloc.Allocator.Free | lib/libtk/src/memalloc.c:353-394 | The block goes, no other is touched, in size or content, and a page that has become one free area is given back: no page is ever wholly free. |
| Malloc.Allocator.Realloc | lib/libtk/src/memalloc.c:280-348 | The block stays in place exactly if it has room there together with the free area behind it, and is cut to the rounded size, but for a rest too small to stand alone; the lesser of old and new size of its content survives the headers and links written into the area it took in and into what is cut off. Else a new block, cut from the smallest free area that is large enough or a new page, has its whole content and the old one goes. No other block changes in place, size or content; exactly if there is no memory for that, areas, flags and all contents are as before. |
| Heaps.GrowThenTrim | lib/libtk/src/memalloc.c:327-330 | Cutting a block that had taken in the free area behind it to its old size restores both. |
| Memories.BlockIsClear | lib/libtk/src/memalloc.c:195-213 | In areas that follow each other no header of any area, not even one that ends a page, and no link of a free area lies in a block. |
| Memories.HeadersApart | lib/libtk/src/memalloc.c:166-190 | Nor do headers overlap each other, the end headers of pages included. |
| Blocks.BlocksKept | lib/libtk/src/memalloc.c:195-213 | Writing headers of areas and links of free areas preserves the content of every block. |
| Blocks.CutKeeps | lib/libtk/src/memalloc.c:312-322 | Growing a block and cutting it, with all that is written before and after, keeps what fits of its content. |
| Blocks.UncutKeeps | lib/libtk/src/memalloc.c:325-332 | Growing a block and cutting it back loses nothing. |
| Blocks.BothExchanged | lib/libtk/src/memalloc.c:334-340 | Copying and then giving the old block back leaves the new block with the old content. |
| Blocks.CopyKeepsOthers | lib/libtk/src/memalloc.c:336-336 | Copying into a block touches no byte of any other. |
| Pages.AddKeepsPages | lib/libtk/src/memalloc.c:183-187 | A new page, its end header included, is apart from all pages with theirs, and first in their order. |
| Pages.DropKeepsPages | lib/libtk/src/memalloc.c:386-388 | Without a page the others follow each other as before. |
| MemCheck.ChkAlloc | lib/libtk/src/memcheck.c:33-104 | The checker finds no fault with any reachable heap and accepts a pointer if and only if it is that of a block. |
| MemCheck.PassesAll | lib/libtk/src/memcheck.c:43-82 | The walk passes every block of every page. |
| Timers.NextTimeIsLater | kernel/tkernel/smp_src/time_calls.c:366-384 | The next start is in the series of the last one, after it and after now. |
| Timers.NextTimeIsFirst | kernel/tkernel/smp_src/time_calls.c:366-384 | It is the first start of the series after both now and the last start; so it is the first after now if and only if the last one is not itself still to come. |
| Timers.NeverDrifts | kernel/tkernel/smp_src/time_calls.c:427-432 | Over any run, however late the events come up, all starts stay in the series of the first. |
| Timers.Timer.Enqueue | kernel/tkernel/smp_src/timer.c:97-107 | The event goes behind all that are no later and before all that are: the queue stays sorted by time, first in first out for equal times. |
| Timers.Timer.Insert | kernel/tkernel/smp_src/timer.c:123-149 | A timeout is registered for the current time plus the delay plus one period; a wait for ever is not registered. |
| Timers.Timer.Tick | kernel/tkernel/smp_src/timer.c:180-221 | Turn by turn the first event is taken out if it is due and its callback acts: it may take back events that are due as well and register later ones. Afterwards nothing queued is due; each event that was queued has been called, in order and not after it was taken back, or was taken back, or is still to come; and over the whole run each event called comes up no earlier than its registration asked: at its moment, or its delay and a period after it was set. |
| Timers.Timer.Serve | kernel/tkernel/smp_src/timer.c:210-221 | What a callback does to the queue is done: events it takes back leave it, the others it registers join it, in this order. |
| Timers.Timer.Delete | kernel/tkernel/smp_src/timer.h:87-94 | Exactly the event with that registration leaves the queue. |
| Timers.Timer.Again | kernel/tkernel/smp_src/time_calls.c:427-432 | The next start is registered after the current time. |

## Left out

- Scheduler.ReadyQueueTop: completeness of the assignment is proved for up to four processors only, the largest number the repository is configured for; with five the search can fail, as `MultiCore.FiveProcessorsCanStrand` shows.
- Masks and the entries of `hist` are sets and numbers, not packed words; the packing is exact for up to sixteen processors. `cnt_bits` with its table of nibbles is the size of a set.
- Tasks, mutexes and areas are numbers instead of pointers; area flags are sets instead of low bits of links.
- Interrupts, spin locks, dispatching and inter-processor requests: each critical section is one step.
- Creation, identifiers, domains, protection, object names, wait-disabling (E_DISWAI) and the reference calls.
- Deadlock: a task that would wait in a circle of owners. The calls that wait take evidence that this does not happen.
- Mutexes.Kernel.SignalAllMutex: takes each mutex off the list of the ending task as it is handed over; the source leaves the head of that list stale until the control block is reset.
- Mutexes.Kernel.DelMtx: clears the owner of the deleted mutex, where the source marks the slot free and clears the owner at creation.
- Mutexes.Kernel.ChangeTaskPriority: the place of a READY task in the ready queue is not part of the mutex model; its move is `ReadyQueues.ReadyQueue.ChangePriority`.
- MultiLock: the place a waiting task gets in the queue of the flag is arbitrary, so that both queueing rules and changes of priority are covered.
- MultiLock: the counter does not wrap around, which would take more tasks than 32 bits count; errors of the event flag other than timeout and release are not modelled.
- MessageBuffers.MessageBuffer.Snd: sends from interrupt handlers, which may overtake waiting senders.
- MessageRing.Ring: headers are stored with the least significant byte first; the program uses the byte order of the machine for both writing and reading.
- Areas of a pool: the head of the chain and the ends of pages are in the set of used areas, where the allocator has an own flag for ends and tests it together with the other.
- PoolWaits.MemoryPool.RelMpl: an address inside the pool that is not that of an area is outside the model, as the source reads whatever lies before it.
- Alignment of addresses to eight bytes, which only serves to keep the flag bits free.
- Timers: 64-bit overflow of times; what handlers and callbacks do besides taking back and registering events; alarm handlers, which use the same queue.
- Malloc.Allocator.Alloc: sizes so large that rounding them wraps around; clearing (`_mem_calloc`); the test mode that calls the checker first. The kernel's copy of the allocator with a spin lock is not modelled again.
- Stores.Store: what is written into headers and links is an arbitrary number; its meaning is in the maps of the chain and the links of the queue.
- Stores.Store: the head of the chain and that of the free queue are outside the memory that areas lie in.
- MemoryPools.Pool.GetBlk: of free areas of the same size any may be taken; the source takes the one that was registered first.
- MemCheck.ChkAlloc: the counts and messages, and what it reports of heaps that calls cannot produce.
- Device management, logging, console, configuration and boot.
