# Registration service: verification model

A Dafny model of the course-registration system: the seat-allocation engine of
the API (enroll, drop, swap, waitlist promotion, reorder, expiry, capacity
edits), the promotion queue and its repair sweep, the audit outbox and its
drain, refresh-token rotation, the clients' single-flight refresh, the meeting
pattern conflict test and the schedule grid's layout.

The seat engine is modelled three times and the three are proved to agree.
`Answers` says beside them, in terms of rows, columns and catalog only, when each
operation gives which answer and what it leaves; they are proved to do just that.

- `Operations` gives each operation as one step on the database, checks and
  error codes included. `Seats`, `Promotion`, `Conservation`, `Lifecycle` and
  `ClosedTerm` prove what these steps keep, conserve and can never do.
- `RegistrationStore` is the service as code: a class whose methods issue the
  statements one after the other, loops included. Each method is proved equal
  to its one-step function, and no counter update leans on the CHECK.
- `Machine` is the service as it runs: any number of transactions, each with a
  program counter, a write buffer and the locks it holds, interleaved statement
  by statement; every statement reads the committed database plus the
  transaction's own writes (READ COMMITTED), and some read before the lock.
  `LocalSteps`, `Interleaving`, `Serializability` and `Runs` prove that every
  interleaved run is, commit by commit, a serial run of the atomic operations,
  so what is proved of those holds of every interleaving. `Liveness` proves that
  no deadlock is reachable and that everything in flight can finish. `Alone` proves
  that a transaction with nobody beside it gives the one-step operation's answer,
  refusals included.

`Eligibility` concerns the checks no lock protects (course, prerequisites,
clashes, credits read other sections). They are an invariant of interleaved
runs provided no student has two of their own requests in flight; `Overlap`
shows for every state exactly when two overlapping enrolls break it. `Admission`
says what stands behind each committed row: a gate and a chain passed in the run.

`AuditTrail` replays the outbox in commit order, `OutboxOrder` in the order of
the ids, which are drawn inside the open transactions. `PromotionQueue`,
`Outbox`, `Tokens` and `SingleFlight` are state machines over their own events
with, beside them, the classes holding the code's fields. `RefreshRace` and
`RefreshFork` take refresh apart into its statements: what overlapping calls
keep, and exactly which overlaps break a token family. `Grid` works in place on
slot objects and states its results on the marks they end up with.
`Registry` holds the rows, `Waitlist` the order and ranks.

`dafny verify dfyconfig.toml` checks the whole project.

Where the repository's documentation and its code differ, the model follows the
code: drop checks no advisor hold, although README.md:392 says holds are checked
before add or drop; and an admin reorder renumbers waitlist positions, although
the comment at apps/api/prisma/schema.prisma:180 says they never are.

Facts about the code the statements depend on:

- An open seat goes to whoever enrolls next, waiters or not; order is kept among
  waitlisted rows only.
- A waitlist cap may be lowered below the current length; only growth is capped.
- A failed promotion job is retained under the section's id and blocks the sweep
  from adding another until it is evicted (`PromotionQueue.SweepBlocked`).
- The sweep looks at the term's own opening time, so a section opened early by a
  standing window is repaired only later (`PromotionQueue.SweepTooEarly`).
- One student's overlapping enrolls are checked without each other's row
  (`Overlap.OverlappingEnrollsBothCommit` says when that costs eligibility).
- Refresh is no transaction: overlapping calls on one family can leave it with
  two live tokens, or live after a replay or a logout (`RefreshFork` says when).
- The grid marks a slot that ends before it starts, and whatever is running when
  it starts, although they do not overlap (`Grid.StrayMark`).
- The server compares times as written and the grid folds hours before 8 into
  the afternoon; `TimeConflict.ServerAgreesWithGridIff` says when they agree.

## Model

| member | source | states |
|---|---|---|
| Seats.ApplyKeeps | apps/api/src/enrollment/enrollment.service.ts:56-905 | any operation, on any input, keeps every section in order: enrolledCount is the number of ENROLLED rows and lies between 0 and capacity, one active row per student, a distinct positive position on exactly the WAITLISTED rows |
| Seats.EnrollKeeps | apps/api/src/enrollment/enrollment.service.ts:320-395 | joining a section, by seat or by waitlist, keeps it in order |
| Seats.DropKeeps | apps/api/src/enrollment/enrollment.service.ts:457-526 | leaving keeps the section in order, whatever the row was |
| Seats.SwapDbKeeps | apps/api/src/enrollment/enrollment.service.ts:839-881 | a swap into a free seat the student does not already hold keeps both sections in order |
| Seats.PromoteKeeps | apps/api/src/waitlist/waitlist.service.ts:301-353 | a promotion run keeps the section in order, the counter set once at the end included |
| Seats.ReorderKeeps | apps/api/src/waitlist/waitlist.service.ts:145-172 | renumbering by a list of distinct ids keeps positions distinct and positive |
| Seats.ExpireKeeps | apps/api/src/waitlist/waitlist.service.ts:395-409 | expiry keeps the section in order and leaves no waiter |
| Seats.EditKeeps | apps/api/src/sections/sections.service.ts:91-103 | a capacity or cap edit that is accepted keeps the counter within the new capacity |
| Waitlist.NextPosition | apps/api/src/waitlist/waitlist.service.ts:35-41 | the position handed out is one above the largest waiting position, and 1 on an empty waitlist |
| Waitlist.OrderedFacts | apps/api/src/waitlist/waitlist.service.ts:100-104 | the ordered list holds every waiting row exactly once, positions strictly rising |
| Waitlist.RankIsIndex | apps/api/src/waitlist/waitlist.service.ts:44-57 | the count of positions at or below the k-th listed row is k+1: ranks are a bijection onto 1..n and agree with the list |
| Waitlist.SeatedOrder | apps/api/src/waitlist/waitlist.service.ts:304-326 | after seating the first k waiters the waitlist is the remaining suffix, in order |
| Waitlist.RenumberedOrder | apps/api/src/waitlist/waitlist.service.ts:165-172 | reorder realises exactly the submitted permutation |
| Promotion.PromotionExact | apps/api/src/waitlist/waitlist.service.ts:301-353 | a run seats exactly the first min(free seats, waiters) rows in position order with one event and one notification each, stores the right count, keeps the others in order, and ends full or with no waiter |
| Promotion.SecondRunIsNoOp | apps/api/src/waitlist/waitlist.service.ts:277-358 | a second run changes nothing and reports zero: duplicate delivery is harmless |
| Promotion.RanksDropByCount | apps/api/src/waitlist/waitlist.service.ts:44-57 | everyone still waiting moves up by exactly the number seated |
| Promotion.NewWaiterRank | apps/api/src/enrollment/enrollment.service.ts:362-395 | the rank reported to a new waiter is the new length of the waitlist, never above a cap, and the row is last in order |
| Promotion.RepeatShowsPlace | apps/api/src/enrollment/enrollment.service.ts:199-225 | a repeat enroll is told the row it has and, if waiting, its place in the ordered list |
| Conservation.DropUndoesJoin | apps/api/src/enrollment/enrollment.service.ts:516-526 | dropping what one just joined restores counter, cap, enrolled rows and queue exactly; a seat is reported freed only if one was taken |
| Conservation.SwapConserves | apps/api/src/enrollment/enrollment.service.ts:839-881 | a swap exchanges one active row of the student for another, touches nobody else, and the seats taken in the two sections together grow only if the source was a waitlist place |
| Conservation.PromotionConserves | apps/api/src/waitlist/waitlist.service.ts:304-326 | promotion turns waiters into enrolled rows one for one |
| Answers.AnswersExact | apps/api/src/enrollment/enrollment.service.ts:56-905 | for every operation on every database in order: each error exactly when a table over rows, columns and catalog says so, and with every other answer exactly the rows, counters, events and notes it leaves |
| Answers.TablesDetermine | apps/api/src/enrollment/enrollment.service.ts:56-905 | the tables admit nothing else: an answer and a database that fit them are the operation's |
| Answers.EnrollAnswers | apps/api/src/enrollment/enrollment.service.ts:61-412 | enroll's part of the table: gate, place already held, course, prerequisites by the student's own COMPLETED rows, clash, credits over the overload or the term's limit, SECTION_FULL only when full with the waitlist at its cap; else a seat if one is free, else the last place of the queue |
| Answers.SwapAnswers | apps/api/src/enrollment/enrollment.service.ts:573-899 | swap's part: unknown row, another's row, row no longer active, same section, unknown target, gate, no seat, chain without its own row, place held; else one row given up for a seat |
| Answers.SwapGoesThrough | apps/api/src/enrollment/enrollment.service.ts:728-881 | a swap with gate and chain clear, a seat free and no place held in the target is done |
| Answers.DropAnswers | apps/api/src/enrollment/enrollment.service.ts:448-544 | drop's part: NOT_FOUND for no such row, ALREADY_DROPPED for one not active; else the row is DROPPED and the seat given back exactly if it held one |
| Answers.PromoteAnswers | apps/api/src/waitlist/waitlist.service.ts:277-358 | promotion's part: the head of the queue, as many as there are free seats |
| Answers.ReorderAnswers | apps/api/src/waitlist/waitlist.service.ts:135-182 | reorder's part |
| Answers.EditAnswers | apps/api/src/sections/sections.service.ts:67-121 | the capacity edit's part |
| Answers.TotalIs | apps/api/src/enrollment/enrollment.service.ts:301-303 | the credits summed over a set are those of any list of its rows added up |
| Answers.NeverFullUncapped | apps/api/src/sections/sections.service.ts:98-99 | once an edit has taken a section's cap away, no enroll into it is told SECTION_FULL until one is set again, whatever else is called |
| LocalSteps.EnrollStep | apps/api/src/enrollment/enrollment.service.ts:164-395 | each statement of enroll under the lock leaves the transaction with exactly the part of the one-step effect it has reached, judged on the locked section |
| LocalSteps.DropStep | apps/api/src/enrollment/enrollment.service.ts:467-544 | the same for drop: re-read, conditional update, counter, audit |
| LocalSteps.SwapStep | apps/api/src/enrollment/enrollment.service.ts:715-897 | the same for swap under its two locks |
| LocalSteps.PromoteStep | apps/api/src/waitlist/waitlist.service.ts:298-353 | the same for each turn of the promotion loop |
| LocalSteps.ReorderStep | apps/api/src/waitlist/waitlist.service.ts:146-184 | the same for each renumbering update |
| LocalSteps.ExpireStep | apps/api/src/waitlist/waitlist.service.ts:395-430 | the same for each expired row |
| LocalSteps.EditStep | apps/api/src/sections/sections.service.ts:91-129 | the same for a capacity edit |
| Interleaving.Undisturbed | apps/api/src/enrollment/enrollment.service.ts:146-159 | another transaction's commit cannot disturb what one has read or written under its own locks |
| Interleaving.PreLockStep | apps/api/src/enrollment/enrollment.service.ts:61-142 | statements before the lock write nothing and decide nothing the lock has to protect |
| Interleaving.UnderLockStep | apps/api/src/enrollment/enrollment.service.ts:457-544 | statements under a section lock write to that section only and keep the private view equal to a serial run's |
| Interleaving.UnderBothStep | apps/api/src/enrollment/enrollment.service.ts:705-897 | the same for swap's two locks |
| Serializability.CommitRefines | apps/api/src/enrollment/enrollment.service.ts:146-407 | a commit has exactly the effect of one atomic operation on the database as it is at that moment; the checks behind it are CommittedWasChecked's |
| Admission.CommittedWasChecked | apps/api/src/enrollment/enrollment.service.ts:88-317 | every committed enroll or swap that added a row passed its gate, its course, its prerequisite and its clash-and-credit check, each at some statement of the run and each judged on the database committed at that moment |
| Admission.RowsPassedTheGate | apps/api/src/enrollment/enrollment.service.ts:88-142 | every row added in an interleaved run was brought by a transaction whose gate statement found registration open; once all clocks are past the close only transactions already past the gate still add rows |
| Serializability.AtomicKeeps | apps/api/src/enrollment/enrollment.service.ts:320-407 | an atomic operation keeps every section in order, deletes no row, moves none to another student and adds none but its own |
| Runs.StepKeeps | apps/api/src/enrollment/enrollment.service.ts:61-412 | every step of the interleaved machine keeps its invariant: sections in order, private views right, locks and holders agreeing, new ids unused |
| Runs.RunRefines | apps/api/src/enrollment/enrollment.service.ts:443-526 | every interleaved run, stale pre-lock reads included, is matched commit by commit by a serial run of atomic operations |
| Runs.CommittedStatesHold | apps/api/src/enrollment/enrollment.service.ts:144-340 | every section of every state any interleaved run reaches is in order |
| Runs.ConstraintsNeverTrip | apps/api/prisma/migrations/20260429000000_enrollment_constraints/migration.sql:18-20 | no statement of any interleaved run trips the CHECK on Section, and only a swap can meet the partial unique index |
| Liveness.NoWaitCycle | apps/api/src/enrollment/enrollment.service.ts:705-712 | in every reachable state no chain of transactions waiting for each other's locks closes on itself |
| Liveness.SomeoneCanStep | apps/api/src/enrollment/enrollment.service.ts:705-712 | whenever a transaction is unfinished, one transaction has an enabled step of its own |
| Liveness.EveryStepDecreases | apps/api/src/enrollment/enrollment.service.ts:61-412 | every step that is not a new arrival lowers a well-founded measure of the work left |
| Liveness.Drains | apps/api/src/enrollment/enrollment.service.ts:705-712 | from every reachable state all transactions in flight can be run to their ends without new arrivals |
| Alone.AloneIsOperation | apps/api/src/enrollment/enrollment.service.ts:61-412 | in any reachable state in which nobody holds a lock, any request's transaction, its statements run one after the other, ends: aborted with exactly the error the table gives and the database untouched, or committed with the operation's answer and effect |
| Alone.SwapAloneCommits | apps/api/src/enrollment/enrollment.service.ts:573-899 | a swap with gate and chain clear, a seat free and no place held, run alone, commits |
| Eligibility.EligibleAdd | apps/api/src/enrollment/enrollment.service.ts:227-317 | a row that passes the chain against an eligible student's other rows can join them: distinct courses, no conflict within a term, credits within the cap, prerequisites done |
| Eligibility.EnrollChecked | apps/api/src/enrollment/enrollment.service.ts:227-317 | enroll passes a check only by evaluating it on the database as it is |
| Eligibility.SwapChecked | apps/api/src/enrollment/enrollment.service.ts:743-837 | the same for swap, with the two checks it skips within one course left out |
| Eligibility.CheckedUndisturbed | apps/api/src/enrollment/enrollment.service.ts:269-317 | commits that add nothing for the student leave passed checks true |
| Eligibility.CommitAdmits | apps/api/src/enrollment/enrollment.service.ts:269-317 | what commits for a student still passes the whole chain at the moment of the commit, a same-course swap's skipped checks included |
| Eligibility.EveryoneStaysEligible | apps/api/src/enrollment/enrollment.service.ts:227-317 | if no student has two of their own enroll or swap requests in flight, then in every committed state of every interleaved run, told of the rows: a student's active rows are of different courses, those of one term do not clash and stay within the credit cap, and every prerequisite of every course held has a COMPLETED row of that same student |
| Eligibility.SwapNeverRefused | apps/api/prisma/migrations/20260513002316_add_waitlist/migration.sql:16-18 | under the same hypothesis the partial unique index never fires at all |
| Overlap.OverlappingEnrollsBothCommit | apps/api/src/enrollment/enrollment.service.ts:151-159 | any state, any student, any two unlocked sections into each of which an enroll alone would seat them: both enrolls can be checked before either commits, both commit, and the student stays eligible exactly if the chain admits the second row beside the first |
| Overlap.OverlapBreaksEligibility | apps/api/src/enrollment/enrollment.service.ts:227-317 | so the hypothesis of EveryoneStaysEligible is needed wherever the chain would refuse the second row: such a run breaks the hypothesis and ends with an ineligible student |
| Overlap.TwoSectionsOfOneCourse | apps/api/src/enrollment/enrollment.service.ts:231-247 | two open sections of one course are such a case |
| AuditTrail.AtomicLogged | apps/api/src/audit/audit.service.ts:15-34 | every operation only appends to the outbox, and its new events replayed over a book of the old state give a book of the new one |
| AuditTrail.SerialLogged | apps/api/src/audit/audit.service.ts:15-34 | the same over any serial run |
| AuditTrail.BookDetermines | apps/api/src/enrollment/enrollment.service.ts:342-348 | a book leaves nothing open: two databases in order that it fits are equal, counters included |
| AuditTrail.OutboxRebuilds | apps/api/src/enrollment/enrollment.service.ts:528-544 | after any interleaved run, folding the run's outbox events in commit order over the initial state rebuilds every row's student, section, status and position and every section's capacity and cap, and so the whole table |
| OutboxOrder.RecordsCommute | apps/api/src/audit/audit.service.ts:15-34 | events that speak of different rows and limits can be folded in either order |
| OutboxOrder.NumberedKeeps | apps/api/prisma/schema.prisma:281-282 | ids drawn at the INSERT inside the open transaction: at every step of every run a section's lock orders the ids of its rows, ids are all different, and an event speaks only of rows of sections its transaction had locked |
| OutboxOrder.Overtakers | apps/api/prisma/schema.prisma:281-282 | a row committed later with a smaller id has no row and no limit in common with the one it follows |
| OutboxOrder.IdOrderRebuilds | apps/api/src/audit/audit-outbox.worker.ts:53-57 | after any interleaved run, folding the committed outbox rows in the order of their ids, which is not the commit order, rebuilds the whole table |
| AuditTrail.IdempotentEnroll | apps/api/src/enrollment/enrollment.service.ts:199-225 | an enroll that finds its student already in changes nothing and logs nothing |
| Lifecycle.AtomicMoves | apps/api/src/enrollment/enrollment.service.ts:320-395 | what one operation may do to each existing row, and where a new row may appear: a free seat, or behind every waiter of a full section |
| Lifecycle.RowsEndOnce | apps/api/src/enrollment/enrollment.service.ts:480-488 | over any run DROPPED and COMPLETED rows never change and a row that is not waiting never waits again |
| Lifecycle.FifoStep | apps/api/src/waitlist/waitlist.service.ts:304-326 | one operation other than a reorder never seats the waiter behind before the one ahead, nor moves either |
| Lifecycle.Fifo | apps/api/src/waitlist/waitlist.service.ts:304-310 | over any serial run without a reorder, of two rows waiting together the later is not seated while the earlier still waits, and whoever waits throughout keeps their row |
| Lifecycle.RunsAreFifo | apps/api/src/waitlist/waitlist.service.ts:304-310 | the same for every interleaved run, relative order included |
| Lifecycle.JoinsBehind | apps/api/src/waitlist/waitlist.service.ts:35-41 | whoever joins a waitlist stands behind everyone on it |
| Lifecycle.AtomicDeparts | apps/api/src/enrollment/enrollment.service.ts:493-526 | the departure events of one operation are exactly the rows it ends |
| Lifecycle.RunDeparts | apps/api/src/enrollment/enrollment.service.ts:467-488 | over any interleaved run a row leaves at most once and logs exactly one departure when it does: concurrent drops of one row count once |
| ClosedTerm.ApplyIsAtomic | apps/api/src/enrollment/enrollment.service.ts:56-905 | an operation run alone with all its checks either changes nothing and reports an error or is one atomic operation |
| ClosedTerm.ClosedSectionsOnlyShrink | apps/api/src/enrollment/enrollment.service.ts:88-94 | once the clock has passed a term's close, no sequence of calls gives its sections a new ENROLLED or WAITLISTED row |
| ClosedTerm.ExpirePassIs | apps/api/src/waitlist/waitlist.service.ts:369-386 | a pass over distinct sections equals releasing each one's waiters, events and notifications section by section |
| ClosedTerm.ExpiryPassExact | apps/api/src/waitlist/waitlist.service.ts:369-435 | one expiry pass drops exactly the rows waiting in terms that are over and touches no other row and no counter; the new events are, each once, the EXPIRED events of those rows with the places they held, the new notifications, each once, those to their students, and there are no others |
| RegistrationStore.Store.Enroll | apps/api/src/enrollment/enrollment.service.ts:56-412 | enroll equals its one-step function; each error is answered exactly when the table over rows, columns and catalog says so, and every other answer leaves exactly the row, counter and event the table gives |
| RegistrationStore.Store.SeatOrQueue | apps/api/src/enrollment/enrollment.service.ts:320-411 | seat if one is free, else the waitlist unless capped and full; the counter update satisfies the CHECK by itself |
| RegistrationStore.Store.CheckGate | apps/api/src/enrollment/enrollment.service.ts:88-142 | the gate is passed exactly while registration is open to the student's standing and no hold is on them; otherwise the close outranks an unknown student, that the opening, and a hold is named only when it alone is to blame |
| RegistrationStore.Store.CheckChain | apps/api/src/enrollment/enrollment.service.ts:227-317 | the chain is passed or answers a code exactly as told of the rows; PREREQUISITE_NOT_MET exactly when the swap is not within one course, no other active row of the student is in the target's course, and some prerequisite has no COMPLETED row of that student |
| RegistrationStore.Store.ClashAmong | apps/api/src/enrollment/enrollment.service.ts:288-296 | the scan finds a clash exactly when some row other than the section's own conflicts |
| RegistrationStore.Store.SumCredits | apps/api/src/enrollment/enrollment.service.ts:301-303 | the loop sums the credits of all rows given |
| RegistrationStore.Store.Drop | apps/api/src/enrollment/enrollment.service.ts:443-561 | drop equals its one-step function, never leaning on the CHECK; both errors and what it leaves are told of the rows |
| RegistrationStore.Store.Swap | apps/api/src/enrollment/enrollment.service.ts:567-905 | swap equals its one-step function, the refused insert's rollback included; SWAP_TARGET_FULL means enrolledCount equals capacity, and a swap of one's own active row with gate and chain clear, a seat free and no place held there ends SwappedTo |
| RegistrationStore.Store.MoveSeat | apps/api/src/enrollment/enrollment.service.ts:839-897 | the swap's writes in order give the one-step swap |
| RegistrationStore.Store.RunPromotion | apps/api/src/waitlist/waitlist.service.ts:277-358 | the promotion run equals its one-step function; nothing happens exactly for a missing section or after the close, else the first min(free seats, waiters) of the queue are seated, with their events and notes |
| RegistrationStore.Store.PromoteWhileOpen | apps/api/src/waitlist/waitlist.service.ts:301-353 | the pick-minimum loop seats exactly the promotable prefix and saves the count once |
| RegistrationStore.Store.Reorder | apps/api/src/waitlist/waitlist.service.ts:130-185 | WAITLIST_CHANGED exactly unless the submitted ids are the waiters; else row k of the order gets position k+1 and nothing else changes but the event |
| RegistrationStore.Store.Renumber | apps/api/src/waitlist/waitlist.service.ts:165-172 | the updates one by one give each listed row its 1-based index |
| RegistrationStore.SameMembers | apps/api/src/waitlist/waitlist.service.ts:153-163 | equal sizes and one inclusion decide set equality |
| RegistrationStore.Store.ExpireSection | apps/api/src/waitlist/waitlist.service.ts:388-435 | expiry of one section drops everyone waiting there, with event and note each, and nobody else |
| RegistrationStore.Store.ExpireClosed | apps/api/src/waitlist/waitlist.service.ts:369-386 | the hourly pass handles each section with waiters in a term past its close exactly once, and no other |
| RegistrationStore.Store.UpdateSection | apps/api/src/sections/sections.service.ts:62-146 | on success a submitted capacity or cap, null included, is the new one, an absent field, the rows and the counter stay; CAPACITY_BELOW_ENROLLED exactly if the submitted capacity is below enrolledCount |
| RegistrationStore.Store.ListForSection | apps/api/src/waitlist/waitlist.service.ts:100-119 | the list shows every waiter once with the number that is its rank, and is empty for a section that does not exist |
| RegistrationStore.RowNumbers | apps/api/src/waitlist/waitlist.service.ts:75-85 | row_number over one waitlist maps each position to its rank |
| RegistrationStore.Store.RankedPositions | apps/api/src/waitlist/waitlist.service.ts:74-90 | the window query covers exactly the waiting positions of the sections asked about |
| RegistrationStore.Store.ComputeRanks | apps/api/src/waitlist/waitlist.service.ts:67-97 | each id asked about at a waiting position gets that position's rank, and no other id gets one |
| PromotionQueue.OperateNotWorse | apps/api/src/enrollment/enrollment.service.ts:555-561 | an operation leaves a section with an open seat and a waiter only if it already was so or its promotion is enqueued |
| PromotionQueue.RunUnsticks | apps/api/src/waitlist/waitlist.service.ts:277-358 | after a promotion run its section is not stuck, and no other section has changed |
| PromotionQueue.NoSilentLoss | apps/api/src/waitlist/waitlist.service.ts:192-231 | in every state reachable from a quiet start a section with an open seat, a waiter and registration not over has a job that will run, an enqueue outstanding, or a recorded loss since its last run |
| PromotionQueue.SweepFinds | apps/api/src/waitlist/waitlist.service.ts:249-260 | the sweep enqueues exactly the stuck sections whose term's own opening time has passed |
| PromotionQueue.WakesExact | apps/api/src/enrollment/enrollment.service.ts:522-561 | an operation enqueues a promotion for exactly the sections whose counter fell or whose capacity rose |
| PromotionQueue.SweepRepairs | apps/api/src/waitlist/waitlist.service.ts:245-270 | of a swept section, with any events in between: after the delivery a job that will run is there exactly if no finished or retained one holds the id; it keeps its place through any events but its own run and a fifth throw; and any run before the close leaves the section full or its waitlist empty |
| PromotionQueue.StaysAwake | apps/api/src/waitlist/waitlist.service.ts:206-217 | a job that will run survives everything but its run and its fifth throw |
| PromotionQueue.SweepBlocked | apps/api/src/waitlist/waitlist.service.ts:214-216 | from any full section with a waiter a run leads to a stuck, swept section whose retained job makes the delivered enqueue do nothing |
| PromotionQueue.SweepTooEarly | apps/api/src/waitlist/waitlist.service.ts:249-260 | and, in a section a standing window opened before its term, to a stuck section with a lost enqueue that no sweep finds |
| PromotionQueue.JobQueue.EnqueuePromotion | apps/api/src/waitlist/waitlist.service.ts:206-230 | a reachable queue ends with a job under the id that will run exactly if no finished or retained one held it, no other job changes, and an unreachable queue is counted and changes nothing |
| PromotionQueue.JobQueue.SweepPromotable | apps/api/src/waitlist/waitlist.service.ts:245-270 | afterwards there is a job for a section exactly if there was one or it has a free seat, someone waiting and a term between its opening and its close; existing jobs are kept |
| Outbox.ExactlyOnceAtRest | apps/api/src/audit/audit-outbox.worker.ts:44-104 | from the start, under any interleaving of commits, batch reads, single inserts, faults, crashes, markings by overlapping drainers and purges: every committed event is undrained or in Mongo, every drained or purged one is in Mongo, Mongo holds each outboxId once and nothing else |
| Outbox.LowestFirst | apps/api/src/audit/audit-outbox.worker.ts:53-57 | a batch takes the oldest undrained rows, in id order |
| Outbox.TickIsHistory | apps/api/src/audit/audit-outbox.worker.ts:50-90 | one whole tick is a run of those single steps, so it inherits the guarantee |
| Outbox.CleanTick | apps/api/src/audit/audit-outbox.worker.ts:53-90 | a tick without faults clears min(n, 200) undrained rows, whatever was already in Mongo |
| Outbox.ClearsInBatches | apps/api/src/audit/audit-outbox.worker.ts:53-90 | n undrained rows are gone after k clean ticks exactly when k is at least n/200 rounded up |
| Outbox.PurgedAfterMark | apps/api/src/audit/retention.worker.ts:59-63 | over any history a committed row no longer in the table was marked by an earlier step and taken by a purge whose cutoff is above the moment of that marking |
| Outbox.StampedByMark | apps/api/src/audit/audit-outbox.worker.ts:87-91 | the stamp a row has after any history is the one it began with or the moment of a step that marked a batch holding it |
| Outbox.OutboxWorker.Drain | apps/api/src/audit/audit-outbox.worker.ts:44-104 | the guard and the gate decide whether a tick happens; every row newly drained carries this moment and is in Mongo, no other row changes, and the exactly-once invariant is kept |
| Outbox.OutboxWorker.DrainBatch | apps/api/src/audit/audit-outbox.worker.ts:53-90 | the batch is marked exactly when every failed insert was a duplicate key; what is marked is the 200 lowest undrained rows, stamped with this moment |
| Outbox.OutboxWorker.PurgeDrainedOutbox | apps/api/src/audit/retention.worker.ts:59-69 | what goes was drained before the cutoff and is in Mongo, no undrained row is among it, the rest is unchanged, the count is the number gone |
| Grid.ColumnsNeeded | apps/web/src/app/profile/schedule-grid.tsx:136-161 | no layout of a group uses fewer columns than a slot and those still running when it starts |
| Grid.FindColumn | apps/web/src/app/profile/schedule-grid.tsx:142-150 | the scan stops at the leftmost column whose last slot is over, if any |
| Grid.PlaceSlot | apps/web/src/app/profile/schedule-grid.tsx:140-155 | one slot goes to the leftmost free column, else to a new one, and the columns stay proper and needed |
| Grid.FillColumns | apps/web/src/app/profile/schedule-grid.tsx:140-155 | first fit: every slot sits in the leftmost column free for it, no two that run into each other share one, and some slot has as many running with it as there are columns |
| Grid.AssignColumns | apps/web/src/app/profile/schedule-grid.tsx:136-161 | a group laid out in place: proper columns, their number the largest load, conflict shown when there are several |
| Grid.OptimalColumns | apps/web/src/app/profile/schedule-grid.tsx:136-161 | any other proper layout of the group needs at least as many columns |
| Grid.LayOutDay | apps/web/src/app/profile/schedule-grid.tsx:133-173 | the day's loop cuts the sorted slots into groups, each linked within and apart from the others, and lays out each by first fit in as many columns as its largest load |
| Grid.GroupsApart | apps/web/src/app/profile/schedule-grid.tsx:163-172 | slots that run into each other are in one group |
| Grid.LayoutDetermined | apps/web/src/app/profile/schedule-grid.tsx:133-173 | the sorted slots decide every mark: two layouts that satisfy what the loop promises are the same |
| Grid.BlocksNeverCollide | apps/web/src/app/profile/schedule-grid.tsx:186-191 | no two placed blocks of a day overlap in both time and column span |
| Grid.ConflictIffBeside | apps/web/src/app/profile/schedule-grid.tsx:156-172 | a slot is marked as a conflict exactly when it and another of the day run into each other: the later starts before the earlier is over |
| Grid.ConflictIffOverlap | apps/web/src/app/profile/schedule-grid.tsx:156-160 | for slots of positive length, exactly when it overlaps another slot of the day |
| Grid.StrayMark | apps/web/src/app/profile/schedule-grid.tsx:142-160 | a slot written to end before it starts is marked, and marks the other, without an overlap |
| Grid.WidthIsDepthIff | apps/web/src/app/profile/schedule-grid.tsx:156-160 | the largest load is the largest number of slots sharing a minute exactly if a slot of positive length carries it |
| Grid.MarksAreConflicts | apps/web/src/app/profile/schedule-grid.tsx:78-91 | over a laid-out week a class has a marked block exactly when, as the grid reads the patterns, it conflicts with another of the student's classes |
| Grid.GroupsAreNarrowest | apps/web/src/app/profile/schedule-grid.tsx:136-161 | in a laid-out day each group's numCols is its largest load, and no layout beats it |
| TimeConflict.ParseMeetingPattern | apps/api/src/enrollment/time-conflict.ts:22-42 | one slot per known day code, in order; nothing for a malformed pattern |
| TimeConflict.HasTimeConflict | apps/api/src/enrollment/time-conflict.ts:48-58 | true exactly when both patterns parse, some letter of MTWRFSU stands in both, and each starts before the other ends |
| TimeConflict.SlotsExact | apps/api/src/enrollment/time-conflict.ts:34-41 | a pattern's slots are exactly its known days with its two times |
| TimeConflict.ConflictSymmetric | apps/api/src/enrollment/time-conflict.ts:44-58 | the order of the two patterns does not matter |
| TimeConflict.LettersAreDays | apps/api/src/enrollment/time-conflict.ts:1-9 | the letters known are MTWRFSU on the server and MTWRF on the grid, no two stand for one day, and the two agree on Monday to Friday |
| TimeConflict.ConflictInTheText | apps/api/src/enrollment/time-conflict.ts:22-58 | conflict in the words of the patterns, whatever they say: both parse, a day letter in common, each starts before the other ends |
| TimeConflict.GridConflictInTheText | apps/web/src/app/profile/schedule-grid.tsx:3-57 | the same for the grid, with an hour before 8 read as afternoon |
| TimeConflict.ConflictIsASharedMinute | apps/api/src/enrollment/time-conflict.ts:44-58 | for positive-length patterns, conflict means some day and minute lies in both |
| TimeConflict.StraddlingDisagrees | apps/web/src/app/profile/schedule-grid.tsx:35-43 | for every weekday pattern across 8:00 (but the two one-minute ones) there is an ordinary pattern on which server and grid disagree |
| TimeConflict.ServerAgreesWithGridIff | apps/web/src/app/profile/schedule-grid.tsx:35-43 | the server's raw comparison and the grid's PM-folded one agree against all one-sided patterns exactly for the patterns lying on one side of 8:00, or one minute long across it |
| Tokens.FamiliesHold | apps/api/src/auth/auth.service.ts:48-121 | from an empty table, over any sequence of login, refresh, logout and purge steps: the families are chains with at most their newest token unrevoked, and all tokens of a family belong to the user whose login opened it |
| Tokens.OneLivePerFamily | apps/api/src/auth/auth.service.ts:88-108 | two unrevoked tokens of a family are the same token, the newest |
| Tokens.LinksMoveOn | apps/api/src/auth/auth.service.ts:102-108 | a token's replacement is the next one issued to its family, so links never cycle and never dangle |
| Tokens.ReplayKillsFamily | apps/api/src/auth/auth.service.ts:77-81 | presenting a stored spent token is refused and revokes its whole family |
| Tokens.DeadStaysDead | apps/api/src/auth/auth.service.ts:77-81 | when steps do not overlap, a family without an unrevoked token never gets one again |
| Tokens.PurgeKeepsUsable | apps/api/src/audit/retention.worker.ts:46-56 | the purge never removes, then or later, a token refresh would still accept |
| RefreshRace.MoveKeeps | apps/api/src/auth/auth.service.ts:66-111 | refresh as its separate statements, any number of calls in progress: a move that does not overlap another refresh of its family keeps every family in order, up to the one refresh inside it |
| RefreshRace.FamiliesHoldApart | apps/api/src/auth/auth.service.ts:88-108 | from an empty table, in every interleaved run in which no refresh overlaps another refresh, logout or revocation of its family, families no refresh is inside are in order, and two tokens of a family are live together only between a refresh's create and its update |
| RefreshRace.AloneIsRefresh | apps/api/src/auth/auth.service.ts:66-111 | the statements of one refresh run alone: which answer and why, a new token of the presented one's user and family running from the create, the presented one spent at the update and linked, or the family revoked |
| RefreshRace.AloneAtOnce | apps/api/src/auth/auth.service.ts:66-111 | made at one moment they are the one-step refresh |
| RefreshFork.TwoRefreshesForkIff | apps/api/src/auth/auth.service.ts:66-111 | two refreshes of one live, unexpired token, amid other traffic: both get a pair and the family ends with both new tokens live exactly if each read before the other updated; otherwise the family is dead |
| RefreshFork.ForkHappens | apps/api/src/auth/auth.service.ts:88-108 | such a schedule exists whenever two refreshes of a live, unexpired token are about to start |
| RefreshFork.ReplayLosesIff | apps/api/src/auth/auth.service.ts:77-81 | a replay of a spent token beside a refresh is always refused as a reuse, but the family it killed ends live exactly if its revocation fell between the refresh's read and its create |
| RefreshFork.LogoutLosesIff | apps/api/src/auth/auth.service.ts:114-121 | logouts with a live token beside a refresh of it end the family exactly if one came before the refresh's read |
| RefreshFork.DeadAndQuietStaysDead | apps/api/src/auth/auth.service.ts:77-81 | in any interleaved run whatever, a dead family no refresh is inside stays dead |
| RefreshFork.OneUserPerFamily | apps/api/src/auth/auth.service.ts:88-93 | in any interleaved run whatever, forks included, all tokens of a family are one user's |
| Tokens.AuthService.Refresh | apps/api/src/auth/auth.service.ts:66-111 | INVALID, REUSE_DETECTED and EXPIRED exactly for an unknown, a revoked and an expired token; a pair makes a token of the same user and family, running from now, the one live token and links the presented one to it; a reuse revokes the family and nothing else; otherwise the table stays |
| Tokens.AuthService.Login | apps/api/src/auth/auth.service.ts:48-63 | a login opens a family whose one live token is the new one, the user's and running from now; no other token changes |
| Tokens.AuthService.Logout | apps/api/src/auth/auth.service.ts:114-121 | logging out with a live token leaves its family without one and touches no other token |
| Tokens.AuthService.RevokeAll | apps/api/src/auth/auth.service.ts:273-278 | no token of the family stays live, and no token that was not live changes |
| Tokens.AuthService.PurgeRefreshTokens | apps/api/src/audit/retention.worker.ts:46-56 | what goes is exactly what is more than seven days past its expiry, and would be refused by refresh now and ever after; the families stay in order and the count is the number gone |
| SingleFlight.OneFlightAtATime | apps/web/src/proxy.ts:15-61 | for any order of arrivals, replies and timers: per key never two fetches in flight, the next starts no sooner than the retention after the last settled |
| SingleFlight.EveryoneJoins | apps/web/src/proxy.ts:50-62 | until the retention lapses a request for the key joins the flight and starts nothing |
| SingleFlight.HeldExactly | apps/web/src/proxy.ts:55-60 | the retention is exact: the timer may fire ten seconds after the flight settled in the proxy, a quarter of one in the browser, and not before; then the next request starts a new fetch |
| SingleFlight.RepliesStand | apps/web/src/proxy.ts:50-62 | a request keeps its flight and a settled reply never changes, so all who joined get the same |
| SingleFlight.FireDeletesOwn | apps/web/src/lib/api/client.ts:54-60 | a retention timer always finds its own flight in the slot: the proxy's unguarded delete and the browser's guarded one coincide |
| SingleFlight.OneRefreshAtATime | apps/web/src/lib/api/client.ts:42-63 | the browser's slot, one key and a quarter of a second: never two refreshes in flight, and the next no sooner than that after the last settled |
| SingleFlight.JointHolds | apps/web/src/proxy.ts:15-62 | the proxy and the token families together keep their invariants from the start, under any traffic, and a settled reply says what the API answered that flight unless nothing came back |
| SingleFlight.BurstRotatesOnce | apps/web/src/proxy.ts:9-15 | from any state of proxy and families and amid everybody else's traffic: while no retention timer of a good token fires and nothing else presents it or ends its session, one fetch at most is made for it, everyone who brings it awaits that fetch, it is answered with the token's one replacement and never as a reuse, nobody is told to log in, and the family keeps a live token |
| SingleFlight.LateStraggler | apps/web/src/proxy.ts:13-17 | once the flight is out of the map a straggler with the spent token is a reuse and the family is gone |
| SingleFlight.FlightTable.Join | apps/web/src/proxy.ts:50-54 | a flight in the slot is joined and nothing starts; else one new flight starts now and takes the slot |
| SingleFlight.FlightTable.OnSettled | apps/web/src/proxy.ts:55-60 | the flight keeps its reply and this moment, the timer is due one retention later, nothing else changes |
| SingleFlight.FlightTable.OnProxyTimer | apps/web/src/proxy.ts:56-59 | deletes the key whatever it holds, and the timer; nothing else changes |
| SingleFlight.FlightTable.OnBrowserTimer | apps/web/src/lib/api/client.ts:54-60 | clears the slot only if it still holds this flight, with the same result |

## Left out

- Controllers, DTO validation beyond distinct reorder ids, guards, metrics, logging, rendering, catalog search and cache invalidation: no deep invariant.
- The Enrollment table is kept partitioned by sectionId, a column no statement updates; a row id is a number supplied with the request, where the database generates a uuid.
- Courses, terms, windows, overloads and users are fixed data and an advisor hold is an input of each gate; nothing here writes them. Credits and times are natural numbers.
- RegistrationStore.Store.Enroll: timestamps (enrolledAt, droppedAt, createdAt) are not stored, because no branch reads them.
- Serializability.CommitRefines: the matched atomic enroll and swap carry no gate and no chain, which belong to earlier moments of the run; Admission.CommittedWasChecked supplies them.
- AuditTrail.OutboxRebuilds: folds in commit order, which the table does not record; OutboxOrder.IdOrderRebuilds folds by id.
- Machine: each statement is one atomic step; the two reads behind the reported rank of an existing waiter are merged into one, which no other committed state depends on.
- Machine: an expiry transaction reads the waiting rows in position order, where SQL leaves the order open.
- No operation here completes a course: COMPLETED rows are whatever the database starts with.
- Swap's ownership guard runs before the service; the model checks that the source row is the caller's and assumes no more.
- RegistrationStore.Store.ExpireClosed: one pass runs alone; interleaved expiry transactions are covered by Runs, not by this method.
- ClosedTerm.ClosedSectionsOnlyShrink: operations are atomic there, because an enroll that passed its gate before the close may still commit after it; Admission.RowsPassedTheGate is the interleaved form.
- Outbox.OutboxWorker.Drain: the lag gauge is not modelled; faults are the set of ids whose insert fails for a reason of its own.
- PromotionQueue.NoSilentLoss: attempts and back-off are counted, delays are not timed; operations are atomic, which Runs.RunRefines justifies.
- Grid: sorting is taken as done, since it is the platform's own sort; pixel offsets and colours are left out.
- TimeConflict: patterns are a days string and two H:MM times or not-a-number; other forms of Number(...) input are not modelled.
- Tokens.AuthService.Refresh: one atomic step with an injective hash and unused random secrets; RefreshRace and RefreshFork take it statement by statement. Access tokens, passwords and cookies are not modelled.
- SingleFlight.BurstRotatesOnce: the refresh a fetch causes is one atomic step, since within one session the proxy lets only one through; what follows the retention timer is LateStraggler's.
- apps/web/src/lib/time-conflict.ts is a copy of the server file and is not modelled again.
