# A verified model of lab-commons

lab-commons shares one machine, and several cluster accounts, among programs that do not know of each other. This
project models the parts of it that decide, and proves what they promise.

**The box ledger.** One ledger per machine holds *claims* (cores, memory, seats of a tool, until a deadline) and
*tickets* (waiters in order). A ticket is admitted when its demand fits the measured room and its claim would not move
the earliest start of any earlier contending ticket: backfill by reservation.

- `Vectors`, `Supply`: resource vectors, the admission rule, and the room measured from a reading of the machine.
- `Order`: the earliest start of a ticket and the one ordering rule. `World`: a closed world in which the room is
  plain arithmetic on declarations. `Stale`: what a reading taken before the lock lends under it, and when it is still
  true.
- `Ledger`: each operation as one atomic step on the rows, and the ledger file as a mutable object whose methods take
  exactly those steps. `Admission`: when a look admits, and what a reap leaves, row by row. `BoxRuns`: whole runs of
  steps, and the over-commit theorem.
- `Starvation`: how long the head of the queue may wait. `BoxWitnesses`: concrete ledgers on which a stronger reading
  of the documentation fails, each with the guard that makes it fail.

**The retry rounds of a cluster run.** A run's test ids are packed into items, submitted as rounds of array tasks, and
gathered: a round's stream is folded into cells and halved groups, which are submitted again until nothing is left. The
cluster is an adversary: it finishes, exits, signals, times out or kills tasks for memory as it likes.

- `PytestItem`: the interleaved stream of a round. `Streams`: what an item's lines say. `Measured`: what a round
  teaches the plan, and what it then asks. `Growth`: a run's memory growth per id. `Asks`: what that growth does to
  the ask of an item.
- `Records`: the fold of one round. `Gather`: the bound on lone ids and the state machine of gather calls, as a
  mutable run file. `Rounds`: no id is lost or repeated over any run. `RoundsEnd`: rounds are bounded, a run whose
  folds do not fail ends, and one whose fold breaks does not. `Fates`: what becomes of every id. `Verdicts`: only a
  test's own report decides it.
- `Packing`, `Submits`, `Start`: whole files packed into items, a round laid out over memory classes, and the first
  state of a run, from which what a record covers and how many rounds it takes follow.

**The algorithms underneath.**

- `Shards`: consecutive shards under growing bounds. `Bins`, `Balance`: refilling them longest processing time first,
  with its four-thirds bound. `Span`: proportional slices over several grants.
- `Allocation`: max-min fair shares. `ArraySpec`: Slurm array ranges and their reader. `Learned`: folding concurrent
  rounds into one table.
- `Graph`, `Execute`, `Executor`: a graph of units, its order and dependants, and the concurrent executor against
  every completion order. `Agreement`: why orders agree. `Twins`: exactly when they do.

`Options`, `Ordered`, `Sums` and `Classes` hold what several of these use. Methods follow the loops and the updates in
place of the code, each proved against a function, and the laws are lemmas about those functions.

## What the documentation says and the code does

Where the two differ the model follows the code.

- `box/order.py:12-15` reads as if no admission ever moved a waiting ticket's start. Only later tickets are checked
  against earlier ones (`BoxWitnesses.AnEarlierTicketMayDelayALaterOne`).
- A claim's row lives a grace past its deadline, and `earliest` returns that past deadline as a start. A jumper is
  then let through although it delays the head (`Order.OverdueRowsHideADelay`). The head's wait is then bounded not
  from its start but from the last admission over a row due since, that took room it fitted in at that very look: the
  reservation is lost exactly there (`Starvation.LostWhereTheFitIsTaken`), and on every other run the head is admitted
  a grace after its start (`Starvation.AdmittedAfterItsStart`; `BoxWitnesses.AGracePastTheStartIsNotEnough` is a run
  that needs the exception).
- A demand of seats alone is decided on a reading that samples nothing, on which an earlier ticket that wants cores or
  memory has no start and protects nothing (`BoxWitnesses.SeatsOnlyJumperIsUnseen`); such an admission does delay a
  head (`BoxWitnesses.ASeatsOnlyJumperDelaysTheHead`).
- A ticket's row truncates its memory to whole bytes and protects that demand
  (`BoxWitnesses.RowIsExactForWholeBytes`).
- "A stale reading only ever lends less" holds of an asker that holds no un-kept claim, and of a holder whose own
  claims are read to take no less than they do (`Stale.StaleReadingLendsLess`, `Stale.LendsNoMoreExactly`); a holder
  that grew since the reading is lent more (`BoxWitnesses.AGrowingHolderIsLentMore`).
- A stale reading also protects less (`BoxWitnesses.AStaleReadingDropsProtection`). The ordering theorems speak of a
  reading true of the claims under the lock; when an earlier one still is, is `Stale.StillSoundExactly`.
- The fold indexes the first unfinished id of an item cut at the longest wall, and fails when every id of it already
  has a cell (`Records.FoldFailsExactly`). Every later gather reads the same round and fails too, so such a run stays
  in flight for ever (`RoundsEnd.BrokenForEver`). A run whose folds do not fail is recorded (`RoundsEnd.RunEnds`).
- An id cut by a memory kill is to ask more next round. It needs more, and an item asks at least that
  (`Measured.ItemAsksItsNeeds`), but the item it is in may ask less than before (`Asks.AnAskMayFall`):
  `Asks.GrowthLowersExactly` says when, and `Asks.GrowthNeverLowersTwo` that it takes three files.
- A unit's hash leaves out its demand and its declared outputs, so units of one hash may run to different outcomes,
  and then the order decides (`Twins.TwinsSettleDifferently`); exactly when no order matters is
  `Twins.OrdersAgreeExactly`.
- A collection error naming an id that was also collected would be celled and run: `Start.StartCoversExactly`.

## Model

| member | source | states |
|---|---|---|
| Vectors.Keep | src/lab_commons/compute/model.py:62-69 | A constructed vector holds exactly the given amounts; a zero and a missing name read the same. |
| Vectors.Plus | src/lab_commons/compute/model.py:96-98 | Addition is name by name, a missing name counting zero. |
| Vectors.Minus | src/lab_commons/compute/model.py:100-102 | What remains of each name is the difference, at least zero. |
| Supply.TotalOfRunning | src/lab_commons/compute/model.py:113-118 | The total of the running vectors is, name by name, the sum of what every held claim declares. |
| Supply.Room | src/lab_commons/box/supply.py:125-154 | Cores, memory and every seat asked about read in the room vector as what may be taken of each. |
| Supply.MeasuredAmount | src/lab_commons/box/providers.py:95-140 | The providers supply, per name, the room for the asker plus every declaration; seats are counted without an asker. |
| Supply.DecidesIsRoom | src/lab_commons/box/ledger.py:264-279 | Supply plus declarations less running claims is the room again: the rule admits a demand exactly when each amount it asks is at most the room of that name. |
| Supply.TheRoomInSums | src/lab_commons/box/supply.py:125-166 | In plain sums over the held claims, each once: of cores and memory what is idle beyond the margin and what claims may still take, within the size beyond what they count for, the asker's own un-kept ones counting for what they use; of a seat what is neither claimed nor seen in use, one where none is declared, none where it cannot be read. |
| Order.EarliestIsLeast | src/lab_commons/box/order.py:83-95 | The earliest start is now exactly when the demand fits, else the least deadline after whose releases it fits, and never only when no deadline does. |
| Order.EarliestNotAfter | src/lab_commons/box/order.py:83-95 | Wherever the demand would fit at a moment, its earliest start is not after that moment, though only deadlines are looked at. |
| Order.FitsAntitone | src/lab_commons/box/order.py:53-57 | Beside one more claim nothing new fits, and a claim that shares no name with the demand changes nothing. |
| Order.EarliestAntitone | src/lab_commons/box/order.py:83-95 | With no overdue row, one more claim never lets a ticket start sooner. |
| Order.DisjointClaimMovesNothing | src/lab_commons/box/order.py:60-95 | A claim sharing no resource leaves a ticket's earliest start unchanged, though its own deadline is one more moment looked at. |
| Order.BackfillNeverDelays | src/lab_commons/box/order.py:98-112 | A claim the rule lets past an earlier declared ticket leaves that ticket's earliest start unchanged, on any reading, while no row is overdue. |
| Order.OverdueRowsHideADelay | src/lab_commons/box/order.py:83-112 | Exactly when backfill does delay: the ticket fitted now, no longer does, and fits again at the past deadline of a row that is overdue but not yet reaped. |
| World.CurrentRoom | src/lab_commons/box/supply.py:125-166 | On a current reading the room of a name is the smaller of OS free less margin and size, less every declaration, floored at zero. |
| Stale.StaleReadingLendsLess | src/lab_commons/box/ledger.py:264-303 | For whoever asks, a reading taken before the lock lends at most what a current one does over the claims read under it, whatever came, went or grew between, as long as the asker's own claims are read to take no less than they do; one that holds no un-kept claim always qualifies. |
| Stale.CurrentRoomFor | src/lab_commons/box/supply.py:125-154 | On a current reading the room for any asker is what the box lends less others' declarations and its own claims' use. |
| Stale.LendsNoMoreExactly | src/lab_commons/box/supply.py:125-154 | Where the reading still shows what runs, it lends no more exactly when it reads the asker's own claims to take no less, or lends nothing. |
| Stale.NothingOwnIsReadLess | src/lab_commons/box/ledger.py:264-303 | A process with no un-kept claim has no own use a stale reading could show too small. |
| Stale.StillSoundExactly | src/lab_commons/box/ledger.py:300-303 | A reading taken before the lock is a true one of the claims read under it exactly when what left was read to use nothing and nobody that stayed is read to use more than it declares now; arrivals do not matter. |
| World.ReleasedIsSound | src/lab_commons/box/order.py:73-80 | A reading with the ended claims' use given back is a true reading of the claims that stay. |
| World.FitsIsSpare | src/lab_commons/box/order.py:53-57 | A demand fits exactly when it and all declarations together stay within what the box lends. |
| World.FitsAfterIsSpare | src/lab_commons/box/order.py:73-95 | Fitting at a moment is fitting beside the declarations that outlast it. |
| Ledger.LedgerFile.ReapRows | src/lab_commons/box/ledger.py:177-192 | A claim or ticket stays exactly when it survives (within deadline and grace, its process or external job alive, its times possible), and what stays keeps its order. |
| Ledger.LedgerFile.TakeTicket | src/lab_commons/box/ledger.py:374-394 | A malformed or never fitting demand leaves the ledger unchanged; any other takes the next ticket id at the end of the queue. |
| Ledger.LedgerFile.FirstDelayed | src/lab_commons/box/ledger.py:317-322 | The first earlier ticket, in queue order, whose earliest start the new claim would move later; none when there is none. |
| Ledger.LedgerFile.TryNow | src/lab_commons/box/ledger.py:286-340 | One look is one atomic step: the reaped rows, and on a yes the new claim with the ticket gone; want of room or an earlier ticket leaves the reaped rows, a key still held the rows as they were. |
| Admission.WhenALookAdmits | src/lab_commons/box/ledger.py:286-340 | On the rows the reap leaves, a look admits exactly when no unresolved external claim holds its key, every amount is at most the room of its name, and the asker holds a claim already or no earlier ticket both shares a resource (an undeclared one always) and would start later beside the new claim; each refusal says which failed, in that order, and the first ticket ahead. |
| Admission.AHolderNeverWaits | src/lab_commons/box/order.py:22-25 | A process that holds a claim is admitted as soon as it fits, whoever waits. |
| Admission.WhatALookWrites | src/lab_commons/box/ledger.py:323-340 | On a yes exactly one row is added, un-kept, the asker's and due its wall from now, and its ticket goes; a held key leaves the ledger untouched, any other refusal what the reap leaves. |
| Admission.WhatOutlivesAReap | src/lab_commons/box/ledger.py:177-192 | A claim stays exactly while it is at most a minute past its deadline, its times are possible and its process, or its external job, lives; a ticket exactly until it gives up, while its process lives. |
| Admission.WhatMayQueue | src/lab_commons/box/ledger.py:374-383 | A hold asks something, whole cores and seats, memory wherever it asks cores, for at most seven days, and waits at most as long. |
| Admission.WhatAnArrivalWrites | src/lab_commons/box/ledger.py:384-394 | An arrival adds one ticket behind all others, with the next number, the asker, what the demand's row says and the end of its patience. |
| Admission.WhatNeverFits | src/lab_commons/box/ledger.py:378-383 | A demand is refused at once exactly when it asks more of something than the box has, a seat nobody declared counting one. |
| Admission.ContendsExactly | src/lab_commons/box/order.py:60-70 | Two loads contend exactly when both have some of one resource. |
| Ledger.LedgerFile.GiveUp | src/lab_commons/box/ledger.py:406-408 | A ticket is in the queue afterwards exactly when it was and is not this one; the order stays and nothing else changes. |
| Ledger.LedgerFile.Drop | src/lab_commons/box/ledger.py:255-257 | A claim is held afterwards exactly when it was and is not this one, kept or not; the order stays and nothing else changes. |
| Ledger.LedgerFile.EndHold | src/lab_commons/box/ledger.py:411-413 | A claim is held afterwards exactly when it was and is not this one or was kept; the order stays and nothing else changes. |
| Ledger.LedgerFile.GiveTo | src/lab_commons/box/ledger.py:215-217 | Row by row only this claim changes: its process is the other one and it is kept; no declaration, deadline or other row does. |
| Ledger.LedgerFile.KeepPastCall | src/lab_commons/box/ledger.py:433-435 | Row by row only this claim changes, and only in being kept. |
| Ledger.LedgerFile.MakeExternal | src/lab_commons/box/ledger.py:220-222 | Row by row only this claim changes: it is kept and an external job's. |
| Ledger.LedgerFile.Adopt | src/lab_commons/box/ledger.py:482-496 | Adoption succeeds exactly when the claim is on the ledger, and then changes only its holder: no second admission. |
| BoxRuns.MarkedDeclaresSame | src/lab_commons/box/ledger.py:215-222 | Handing over or keeping a claim changes no declared sum, at any moment. |
| BoxRuns.RoomIsCapped | src/lab_commons/box/supply.py:125-166 | For a process holding no un-kept claim the room never passes the size less every declaration, whatever the reading says. |
| BoxRuns.StepStaysWithin | src/lab_commons/box/ledger.py:177-340 | Every ledger step keeps declared cores, memory and each seat within the size. |
| BoxRuns.NeverOverCommits | src/lab_commons/box/ledger.py:264-340 | Over every run of arrivals, looks, hand-overs, adoptions, releases and reaps on any readings, declarations of every name sum to at most its size. |
| Starvation.EarliestByReservation | src/lab_commons/box/order.py:83-95 | If what outlasts a moment leaves room for a ticket, its earliest start is at most the later of now and that moment. |
| Starvation.ReservationByEarliest | src/lab_commons/box/order.py:83-95 | Conversely, an earliest start by a moment means that what outlasts the moment leaves room for it. |
| Starvation.JumperKeepsIt | src/lab_commons/box/order.py:98-112 | A claim admitted past the head keeps the head's reservation by its moment, unless the head fitted and a row due since that moment was still held; where the head fitted there is one by the moment of the admission. |
| Starvation.JumperPassed | src/lab_commons/box/ledger.py:316-322 | Whatever is admitted past the head passed the ordering rule against it. |
| Starvation.StepKeepsReservation | src/lab_commons/box/ledger.py:177-340 | Every step of other processes keeps the head first in the queue and its reservation, whose moment moves only where the head's fit is taken. |
| Starvation.LostWhereTheFitIsTaken | src/lab_commons/box/ledger.py:177-340 | At every moment, a step loses the head's reservation exactly when it admits a claim where the head fitted, a row due since the reservation's moment is still held, and beside the claim what stays past that moment leaves no room. |
| Starvation.TakenOverADueRow | src/lab_commons/box/order.py:83-112 | A head that fitted at a look and no longer does after its admission was passed over a row already due and not yet reaped. |
| Starvation.ReservationHolds | src/lab_commons/box/ledger.py:304-340 | Over every orderly run the head stays first and its reservation stands by the later of its start and the last moment its fit was taken. |
| Starvation.BoundIsTheStart | src/lab_commons/box/ledger.py:304-340 | The bound is the head's start itself exactly on the runs in which no step takes the fit reserved by that start. |
| Starvation.RowSaysDemand | src/lab_commons/box/ledger.py:282-283 | A row of a bookable demand of whole bytes says exactly what it asks. |
| Starvation.HeadIsAdmitted | src/lab_commons/box/ledger.py:286-340 | The head's look past its bound and a grace, or once no held row is due by the bound, admits it. |
| Starvation.NoStarvation | src/lab_commons/box/ledger.py:286-340 | The start found when a ticket becomes head is that moment or a deadline then held; over every orderly run its earliest start stays at most the later of now and the bound, and its first look after bound and grace, or once no held row is due by the bound, admits it. |
| Starvation.AdmittedAfterItsStart | src/lab_commons/box/order.py:12-15 | Unless some admission past it, over a row due since its start, took room the head itself fitted in at that look, its first look more than a grace after the start admits it. |
| Starvation.AdmissionDelaysNobody | src/lab_commons/box/ledger.py:316-340 | An admission by a process with no claim and no use in the reading, while no row is overdue, leaves the earliest start of every earlier declared ticket in the queue unchanged. |
| BoxWitnesses.AnEarlierTicketMayDelayALaterOne | src/lab_commons/box/order.py:14-15 | The stronger reading is false: admitting the first ticket moves a later one's earliest start from 100 to 1000. |
| BoxWitnesses.AnOverdueRowLetsAJumperThrough | src/lab_commons/box/order.py:83-112 | A row past its deadline and not yet reaped lets a contending claim past the head, though the head's next look finds no room. |
| BoxWitnesses.AGracePastTheStartIsNotEnough | src/lab_commons/box/ledger.py:125-127 | A whole orderly run in which the head, more than a grace after its start, is still refused, its fit having been taken over an overdue row. |
| BoxWitnesses.SeatsOnlyJumperIsUnseen | src/lab_commons/box/ledger.py:499-500 | On the reading a seats-only demand is decided on, an earlier ticket wanting any core or memory has no start and orders nobody behind it. |
| BoxWitnesses.ASeatsOnlyJumperDelaysTheHead | src/lab_commons/box/ledger.py:499-500 | A ledger on which a seats-only ticket is admitted past a head wanting a byte and the same seat, and moves its start from now to the end of the new claim. |
| BoxWitnesses.RowIsExactForWholeBytes | src/lab_commons/box/ledger.py:324-338 | A row says what its demand asks of memory exactly when that is a whole number of bytes, and never a byte less. |
| BoxWitnesses.AFractionIsNotProtected | src/lab_commons/box/ledger.py:317-322 | A demand of nine and a half bytes starts now by its row and does not fit. |
| BoxWitnesses.AHolderMayOverCommit | src/lab_commons/box/supply.py:125-154 | A process holding a claim it barely uses may be admitted past the size: the over-commit theorem needs fresh askers. |
| BoxWitnesses.AStaleReadingDropsProtection | src/lab_commons/box/ledger.py:300-303 | A stale reading lends less and protects less: on it a waiting ticket never fits and orders nobody behind it. |
| BoxWitnesses.AGrowingHolderIsLentMore | src/lab_commons/box/ledger.py:264-303 | A holder whose claim grew between the reading and the lock is lent ten on the stale reading and four on the current one, both of them true. |
| PytestItem.TagLines | src/lab_commons/hpc/pytest_item.py:397-419 | Every line of a round's file with the item it belongs to: its own tag, or the retired section in force; broken lines are left out. |
| PytestItem.SplitStreams | src/lab_commons/hpc/pytest_item.py:422-437 | The streams of the round of this tag, as the line-by-line specification gives them. |
| PytestItem.DemultiplexingUndoesInterleaving | src/lab_commons/hpc/pytest_item.py:422-437 | However whole lines interleave, an item has a stream exactly when it wrote a line, and it is its own lines after its last begin. |
| PytestItem.KeptRoundReadsBack | src/lab_commons/hpc/records.py:291-304 | In a file of kept rounds with distinct tags, each round reads back as its live file did. |
| PytestItem.ReadStream | src/lab_commons/hpc/pytest_item.py:355-390 | One pass gives the cells, seconds, close and last start of an item's stream. |
| PytestItem.KeepsFirstWorstPhase | src/lab_commons/hpc/pytest_item.py:349-390 | An id has a cell exactly when it is expected and reported, and it is the first of its worst phases. |
| Streams.WhatAStreamSays | src/lab_commons/hpc/pytest_item.py:355-390 | An item closed as its last close says, was last running what its last start names, and each test took what its timed phases took together. |
| Streams.HowBad | src/lab_commons/hpc/pytest_item.py:194-200 | Worst is a decided answer other than the declared one, then one that decides nothing, then one as declared or not applicable. |
| Streams.AsCollected | src/lab_commons/hpc/pytest_item.py:364-384 | A reported id is itself, or without its trailing group when only what precedes it is an id of the item. |
| Streams.ASectionReads | src/lab_commons/hpc/pytest_item.py:397-425 | A retired section reads as its lines tagged with its item, whatever came before. |
| Streams.OtherLinesRead | src/lab_commons/hpc/pytest_item.py:397-425 | A tagged line is its item's wherever it stands; a broken one, or an untagged one before any section, is dropped. |
| Measured.Table.LearnItem | src/lab_commons/compute/measured.py:142-178 | Learning an item in place is the learning step on the table's contents. |
| Measured.Table.TeachKill | src/lab_commons/compute/measured.py:180-195 | A kill floors the cut id, and the item's one file once a round, and nothing else. |
| Measured.Table.OutgrowRest | src/lab_commons/compute/measured.py:231-243 | The unfinished ids' floors rise by equal shares of what the target is short. |
| Measured.Table.PriceKilled | src/lab_commons/compute/measured.py:197-229 | What a kill cost is shared between overhead and floors as the killing step says. |
| Measured.NeedIsAFloor | src/lab_commons/compute/measured.py:336-353 | An id needs at least its own learned floor, whatever its file's peak and its growth. |
| Measured.ItemAsksItsNeeds | src/lab_commons/compute/measured.py:314-353 | An item asks at least the padded need of each id it holds, the id's growth included. |
| Measured.ItemAsksItsFloors | src/lab_commons/compute/measured.py:314-353 | An item asks at least the padded floor of each id it holds. |
| Measured.FloorOutlives | src/lab_commons/compute/measured.py:142-243 | Over any sequence of later lessons, only its own finish lowers an id's memory floor. |
| Measured.KillIsTaught | src/lab_commons/compute/measured.py:180-195 | A signalled item floors its cut id at least at what its limit allowed, grown. |
| Measured.KillNeverCheaper | src/lab_commons/compute/measured.py:142-195 | After a signalled kill at a limit, in every later round until the cut id finishes, any item holding it asks at least OOM_GROWTH times that limit. |
| Measured.SecondsAtLeastPrices | src/lab_commons/compute/measured.py:251-267 | An item is estimated at no less than its ids' prices together. |
| Measured.OutgrownPrice | src/lab_commons/compute/measured.py:231-243 | After outgrowing, the unfinished ids price at least the target together. |
| Measured.WallKillPricesTheItem | src/lab_commons/compute/measured.py:197-243 | Right after a wall kill the unfinished ids are estimated at no less than twice the time spent, held to the longest wall granted. |
| Measured.KillFloorsTheCut | src/lab_commons/compute/measured.py:199-230 | The first id without a cell has a floor of at least what the finished tests and the overheads do not explain of the time spent, doubled where the wall or a signal ended it and held to the longest wall; no floor falls, and where the wall did not end it no other floor changes. |
| Measured.NoTimeTeachesNothing | src/lab_commons/compute/measured.py:216-220 | A kill that took no time, or left no id without a cell, teaches nothing. |
| Measured.TimedInOrder | src/lab_commons/compute/measured.py:147-150 | The timed ids stay listed once each in the order they were first timed. |
| Measured.OutgrownExactly | src/lab_commons/compute/measured.py:232-246 | Short of the target the unfinished ids price at exactly it afterwards, each raised as much as the others; otherwise nothing changes. |
| Measured.WhatAStreamTeaches | src/lab_commons/compute/measured.py:135-197 | Fact by fact: a finished id's time, which drops its floors; of an item that exited the share of overhead and the round's worst peak for each of its files; of a signalled one twice its known need for the id it cut, and for its file when it is of one; and nothing else. |
| Measured.EstimatedBack | src/lab_commons/compute/measured.py:138-141 | An item that exited with every test timed is estimated back at the wall it took, or at its tests where they took longer, however many files share the overhead. |
| Measured.WhatAnIdCosts | src/lab_commons/compute/measured.py:255-275 | An id is priced at its own time, else the mean of its file's timed ids, at least its floor. |
| Measured.MeanIs | src/lab_commons/compute/measured.py:248-268 | The mean of a file is what its timed ids took, over how many they are, and nothing where none is timed. |
| Measured.WhatAFileCosts | src/lab_commons/compute/measured.py:255-275 | A file of which nothing is measured costs the declared cost, or its floors where they are more; any other its overhead and the prices of its ids. |
| Measured.FileOfNode | src/lab_commons/compute/measured.py:255-262 | A node id's file is what stands before its double colon. |
| Records.Fold | src/lab_commons/hpc/records.py:92-192 | One pass over a round gives the folded cells and pending groups, whether a signal closed an item and the closed items' walls together, and teaches the table each item's lessons in order. |
| Records.FoldFailsExactly | src/lab_commons/hpc/records.py:173-179 | The fold fails exactly when some item whose every id has a cell never closed, in a timed-out shard that ran to the longest wall. |
| Records.HalvesKeepAll | src/lab_commons/hpc/records.py:189-190 | Halving loses no id and leaves no empty group. |
| Records.ItemConserves | src/lab_commons/hpc/records.py:152-190 | An item's ids split exactly into those it gives a cell and those it leaves, in non-empty groups. |
| Records.FoldConserves | src/lab_commons/hpc/records.py:152-190 | A round's ids split exactly into newly celled ids and pending groups, no id in both and none twice. |
| Fates.WhatEndsAnItem | src/lab_commons/hpc/records.py:155-203 | What each way of ending makes of an item, on its closing code, its shard's state and its stream: every reported id keeps its cell; an exit makes the test it was running ERROR and the rest run again, or all PENDING with none known; the top wall makes the first id left TIMEOUT; a kill at the memory ceiling makes the lone id left OUT_OF_MEMORY; a signal, or no close, gives no cell and all that is left runs again in order, in two halves. |
| Fates.FoldsItemByItem | src/lab_commons/hpc/records.py:147-205 | A round is what its items end as: each id has the cell its own item gives it, the old cells stay, and the groups left are those of the items. |
| Fates.WhatAnItemTeaches | src/lab_commons/hpc/records.py:149-176 | Every item teaches its stream, with the limit it died at exactly when its shard ran out of memory, and exactly when it did not exit how long it ran: its own wall under a signal, what its shard's wall had left when it never closed. |
| Fates.EveryItemTeaches | src/lab_commons/hpc/records.py:147-205 | A round's lessons are its items' in their order, none left out. |
| Fates.ARoundRemembersItsKills | src/lab_commons/hpc/records.py:116-146 | The test a signal cut in a shard that ran out of memory has a floor of twice what its limit allowed once the whole round is folded, unless a later item finished it. |
| Growth.GrownAfter | src/lab_commons/hpc/gather.py:264-301 | The growth after a round: cut ids grown, finished and already taught ones dropped, all others as they were. |
| Growth.GrowsOnceARound | src/lab_commons/hpc/gather.py:264-301 | The growth of an id after a round: doubled once, however many items it was cut in, when a memory kill outside a timed-out shard cut it as an item's first id without a cell; one again when its kill already floored it, or when it finished in a shard that did not run out of memory; else unchanged. |
| Growth.GrowthStaysAtLeastOne | src/lab_commons/hpc/gather.py:264-301 | Over every run of rounds no id's growth falls under one: growth only raises what an id needs. |
| Asks.OnePeakRises | src/lab_commons/compute/measured.py:336-353 | Growth of one id raises its own file's peak and leaves every other file's. |
| Asks.AccumulatedWith | src/lab_commons/compute/measured.py:332-334 | What one more distinct peak adds to an item: nothing when it equals another, its height over the lightest once, or, as the new lightest, its distance below the old one for every other peak but one. |
| Asks.WhatAnIdNeeds | src/lab_commons/compute/measured.py:336-353 | An id needs the worst of its file's peak (learned or prior), its own floor and the declared memory, times its growth. |
| Asks.PeakIsAttained | src/lab_commons/compute/measured.py:336-353 | A file peaks at its worst id of the item. |
| Asks.GrowthLowersExactly | src/lab_commons/compute/measured.py:314-353 | More growth of an id lowers the ask of an item holding it exactly when its file's peak was no other's and either was the lightest and the others lose more over the new lightest than it gains above them, or comes to equal another and counts once. |
| Asks.GrowthNeverLowersTwo | src/lab_commons/compute/measured.py:314-353 | No growth lowers the ask of an item of at most two files, or of at most two distinct peaks. |
| Asks.AnAskMayFall | src/lab_commons/compute/measured.py:314-353 | A round killed for memory after which the half that holds the cut id asks 6 GB where it asked 8. |
| Gather.RunFile.BoundLoneIds | src/lab_commons/hpc/gather.py:139-168 | Counting lone ids in place gives exactly the bounded groups, counts and cells; groups of several ids are untouched. |
| Gather.RunFile.StampAll | src/lab_commons/hpc/gather.py:134-136 | Every id left gets the closing cell and the record is written. |
| Gather.RunFile.Submit | src/lab_commons/hpc/gather.py:116-133 | A retry is in flight, waits for room, or is settled because no grant can take it. |
| Gather.RunFile.GatherRound | src/lab_commons/hpc/gather.py:42-136 | One gather of a finished round is the protocol's step; a failing fold leaves the state as it was. |
| Gather.RunFile.RetryWaiting | src/lab_commons/hpc/gather.py:171-208 | One gather of a waiting run is the protocol's step: submitted, still waiting within the stall bound, or settled. |
| Fates.WhatAGatherDoes | src/lab_commons/hpc/gather.py:107-136 | Group by group: a lone id killed for memory in too many rounds is OUT_OF_MEMORY; the rest is submitted again, one more round, exactly while the rounds so far are at most RETRIES or the round ran out of memory under a ceiling, and waits where there is no room; INFRA is given only where neither holds, UNAVAILABLE only where no grant can take it; every other cell stays. |
| Fates.WhatAWaitComesTo | src/lab_commons/hpc/gather.py:173-213 | A waiting round is submitted as soon as there is room, one more round; with none it stays as it is exactly until the stall bound and is then INFRA; where no grant can take it, it is UNAVAILABLE. |
| Rounds.RearrangedIds | src/lab_commons/hpc/run.py:198-307 | A plan that only reorders groups keeps every id and no empty group. |
| Rounds.BoundCovers | src/lab_commons/hpc/gather.py:139-168 | Bounding lone ids only moves ids from groups to cells. |
| Rounds.CallCovers | src/lab_commons/hpc/gather.py:42-208 | Every gather call keeps each id of the run either celled or in exactly one group to run. |
| Rounds.NoIdLostOrRepeated | src/lab_commons/hpc/gather.py:42-208 | Over every run of gather calls against any cluster, each id is celled or in one non-empty group, never both, and a written record's cells are exactly the run's ids. |
| RoundsEnd.LeavesLighter | src/lab_commons/hpc/records.py:152-190 | What an item leaves weighs less, except a lone id that never finished. |
| RoundsEnd.BoundedLeavesLighter | src/lab_commons/hpc/gather.py:139-168 | In a round judged out of memory, every item outside a timed-out shard leaves strictly less weight. |
| RoundsEnd.JudgedRanSomething | src/lab_commons/hpc/gather.py:110-111 | A round judged out of memory ran some item outside a timed-out shard. |
| RoundsEnd.BoundLowers | src/lab_commons/hpc/gather.py:139-168 | What the bound keeps weighs at most the bounded potential, and no kept id has reached the bound. |
| RoundsEnd.RoundLightens | src/lab_commons/hpc/gather.py:42-136 | What a round hands on is never heavier, and strictly lighter when the round was judged out of memory. |
| RoundsEnd.CallStaysWithin | src/lab_commons/hpc/gather.py:42-208 | Every gather call keeps the rounds so far and the potential of what is owed within RETRIES + 1 plus the first potential, though a single call may raise their sum. |
| RoundsEnd.RoundsAreBounded | src/lab_commons/hpc/gather.py:110-131 | Over every run of gather calls the rounds stay within RETRIES + 1 plus the first round's potential, though out-of-memory rounds are not counted. |
| RoundsEnd.FirstRoundIsWithin | src/lab_commons/hpc/run.py:321-404 | A run's first round in flight starts within the bound of its own potential. |
| RoundsEnd.FoldsAreRounds | src/lab_commons/hpc/gather.py:42-136 | Each submitted round is folded at most once, so bounded rounds are bounded folds. |
| RoundsEnd.WaitingEnds | src/lab_commons/hpc/gather.py:190-200 | A wait past the stall bound never goes on waiting. |
| RoundsEnd.RunEnds | src/lab_commons/hpc/gather.py:42-208 | Where no fold fails and no wait goes on, a run is recorded after at most two calls for each round it may submit. |
| RoundsEnd.FoldsAreBounded | src/lab_commons/hpc/gather.py:42-136 | From its first round a run folds at most RETRIES + 1 rounds plus that round's potential, and after as many none is in flight. |
| RoundsEnd.GatherFailsExactly | src/lab_commons/hpc/records.py:173-179 | A gather fails exactly where its report breaks the fold of some item. |
| RoundsEnd.BrokenForEver | src/lab_commons/hpc/gather.py:42-136 | Gathered with reports that break its fold, a run stays in flight as it was, however often. |
| RoundsEnd.AFoldThatBreaks | src/lab_commons/hpc/records.py:173-179 | One test with its cell reported, its item never closed and its shard timed out at its top wall breaks the fold. |
| Verdicts.FoldVerdict | src/lab_commons/hpc/records.py:92-192 | A fold decides no test: a verdict in its cells was there before or is some item's own report. |
| Verdicts.CallVerdict | src/lab_commons/hpc/gather.py:42-208 | No gather call decides a test its round did not report. |
| Verdicts.VerdictsAreReported | src/lab_commons/hpc/gather.py:147-154 | Over every run a cell that decides a test was there at the start or is what some round's stream reported for that test: a kill, a lost task or a refused placement never decides one. |
| Fates.RunKeepsCells | src/lab_commons/hpc/gather.py:42-213 | Over every run of gather calls a cell once given never changes. |
| Fates.ReportStands | src/lab_commons/hpc/gather.py:42-213 | What a test reported in a round that is folded is its cell at the end of every run from there. |
| Packing.GroupItems | src/lab_commons/hpc/shell.py:419-424 | The items are the files' ids, files in first-seen order and ids in collection order. |
| Packing.PerFileKeepsAll | src/lab_commons/hpc/shell.py:419-424 | Every collected id is in exactly one file's item. |
| Packing.BandedIsStable | src/lab_commons/compute/measured.py:300-300 | Sorting files by memory class keeps every id, ascending classes, and collection order within each class. |
| Packing.Pack | src/lab_commons/compute/measured.py:279-312 | Items are whole files in consecutive spans of the sorted order, one class each, every file let in within class and budget, and an item closes only where the next file may not join. |
| Packing.ClosesExactly | src/lab_commons/compute/measured.py:287-312 | An item closes exactly where the next file is of another class, would lift the item more than one class over it, or would pass the budget. |
| Packing.PackedKeepsAll | src/lab_commons/compute/measured.py:279-312 | Packing loses no id and leaves no item empty. |
| Packing.PackedWithin | src/lab_commons/compute/measured.py:304-310 | An item of several files keeps to the budget, and its class to at most one above each of its files'. |
| Submits.BandHolds | src/lab_commons/compute/measured.py:382-384 | An ask is at most its class's power of two and, past the first class, above half of it. |
| Submits.SubmitRound | src/lab_commons/hpc/run.py:198-310 | A round's manifest permutes the pending groups and its shards tile it; one array a memory class, heaviest first, asks what the heaviest item of it does, marked when that is the most any grant gives; and each class lies exactly as balancing its planned cut over its estimates says. |
| Submits.CeilingIsReached | src/lab_commons/hpc/run.py:220-260 | Some item of a class asks the ceiling or more exactly when the class's heaviest held ask is the ceiling. |
| Submits.ManifestRearranges | src/lab_commons/hpc/run.py:277-282 | A submitted round only rearranges the groups it was handed. |
| Submits.AsksUnderDouble | src/lab_commons/hpc/run.py:230-262 | No task asks twice what an item of it does, past the first class. |
| Submits.RewalledHoldsEveryShard | src/lab_commons/hpc/run.py:310-318 | Where the plan's wall held the shards it was planned over, the balanced round's wall, never longer, holds every padded balanced shard. |
| Submits.Rewalled | src/lab_commons/hpc/run.py:310-318 | The wall over the balanced shards is the plan's own or the least whole minutes, at least one, that hold the slowest. |
| Submits.PaddingAddsUp | src/lab_commons/hpc/run.py:315-316 | Padding what runs back to back is padding each part, and a safety of one pads nothing. |
| Start.SubmitRun | src/lab_commons/hpc/run.py:350-404 | A run starts from the collected ids less those handed over or taken from earlier runs, beside the cells of what broke or was taken: grouped by file, sorted by memory class and packed, its first round's items are exactly what was packed and hold each id to run once; none starts where nothing was collected, or something is to run and no grant takes the first round. |
| Start.FirstRound | src/lab_commons/hpc/run.py:198-310 | The first round is one array a memory class of what the packed groups ask, each class as balanced over its planned cut. |
| Start.WhatARunStartsWith | src/lab_commons/hpc/run.py:350-401 | Id by id: a collection error is a rejected cell, a collected id keeps the cell an earlier run holds for it unless its file broke or it went to another part, and the other collected ids are to run once each. |
| Start.StartCoversExactly | src/lab_commons/hpc/run.py:350-401 | Every collected id is recorded or to run, once, exactly when no collected id kept here also failed to collect. |
| Start.RecordCoversCollected | src/lab_commons/hpc/run.py:350-404 | Whatever the cluster does, a written record has a cell for exactly the collection errors and the collected ids not handed to another part. |
| Start.RunIsBounded | src/lab_commons/hpc/gather.py:110-131 | From its start a run submits at most RETRIES + 1 rounds plus four for each id it has to run. |
| Shards.Pack | src/lab_commons/hpc/shards.py:20-30 | The shards are the greedy cut: consecutive non-empty ranges covering the items, each closed as soon as it may be and no sooner. |
| Shards.GreedyCutIsUnique | src/lab_commons/hpc/shards.py:20-30 | The greedy conditions leave no choice: two cuts agree range by range. |
| Shards.GreedyCutExactly | src/lab_commons/hpc/shards.py:22-32 | A cut is greedy exactly when its ranges follow one another over all items, each holds less than the low bound and at most the high one until its last item, and one that items follow holds the low bound or would pass the high one with the next. |
| Shards.BoundedUnlessAlone | src/lab_commons/hpc/shards.py:20-30 | A range of more than one item never passes the high bound. |
| Shards.GrowsLinearly | src/lab_commons/hpc/shards.py:39-40 | A bound grown step by step by a tenth is at least linear in the steps. |
| Shards.GrownInStep | src/lab_commons/hpc/shards.py:39-40 | Both bounds keep their proportion however often they grow. |
| Shards.OneShardAtLast | src/lab_commons/hpc/shards.py:33-41 | Once the low bound passes the whole, one shard holds it. |
| Shards.CutShards | src/lab_commons/hpc/shards.py:33-41 | The cut returned fits the cap, is greedy at the first bounds grown so many times, every cut at fewer is too long, and the low bound ends within a tenth above the larger of the first one and the whole. |
| Shards.WallHoldsExactly | src/lab_commons/hpc/shards.py:72-74 | A whole number of minutes is at least the wall exactly when every shard ends within it. |
| Shards.OneWave | src/lab_commons/hpc/shards.py:77-95 | At most as many shards as run at once, unless their wall passes the ceiling: then the first cut that fits the room; the wall is the returned shards'. |
| Bins.Jobs | src/lab_commons/hpc/shards.py:58-58 | The items heaviest first, equals in their own order, each once. |
| Bins.Lightest | src/lab_commons/hpc/shards.py:59-61 | The heap yields the first of the least loaded bins. |
| Bins.AcrossFilled | src/lab_commons/hpc/shards.py:56-61 | Whatever is summed, the bins together hold what the jobs do. |
| Bins.WeightGiven | src/lab_commons/hpc/shards.py:56-61 | Above a third of its fullest bin no assignment puts more than weight two together. |
| Bins.HeavyFits | src/lab_commons/hpc/shards.py:56-61 | A job above a third of some assignment's fullest bin lands within that fullest bin. |
| Bins.LoadsWithinFourThirds | src/lab_commons/hpc/shards.py:56-61 | No bin exceeds (4m - 1)/3m of the fullest bin of any assignment to as many bins. |
| Balance.Balance | src/lab_commons/hpc/shards.py:44-69 | Filling heap and bins in place and laying them out gives the balanced order and ranges. |
| Balance.BalancedPermutes | src/lab_commons/hpc/shards.py:44-69 | The items are permuted, the shards as many as given, consecutive and covering if the given ones were. |
| Balance.RangesAscend | src/lab_commons/hpc/shards.py:64-69 | Every balanced shard is one bin, its items in their original order. |
| Balance.NeverSlower | src/lab_commons/hpc/shards.py:62-63 | The outcome is the input itself or strictly faster: never slower. |
| Balance.WithinFourThirds | src/lab_commons/hpc/shards.py:44-69 | Whatever assignment to as many shards stays within a time, the outcome stays within 4/3 - 1/3m of it, also when the input came back unchanged. |
| Balance.NoShardIsEmpty | src/lab_commons/hpc/shards.py:44-69 | With positive estimates and no more shards than items, no shard comes out empty. |
| Span.Nearest | src/lab_commons/hpc/span.py:53-53 | The first boundary from the start on whose running sum is nearest the target. |
| Span.CutWithinHalf | src/lab_commons/hpc/span.py:43-56 | A cut is never further than half the largest item from its grants' exact share. |
| Span.Split | src/lab_commons/hpc/span.py:43-57 | Consecutive slices covering the batch; each cut is the first item boundary nearest to its exact share's end, and each slice is within one largest item of its share. |
| Span.SharesAreExact | src/lab_commons/hpc/span.py:43-57 | The exact share of a grant is its weight's part of the whole. |
| Allocation.Fair | src/lab_commons/hpc/allocation.py:205-221 | Each share is the demand or one common level, the smaller; the level spends the capacity or meets every demand, whatever the order of ties. |
| Allocation.FairIsUnique | src/lab_commons/hpc/allocation.py:205-221 | Any two fair levels give every stream the same share. |
| Allocation.FairSpends | src/lab_commons/hpc/allocation.py:205-221 | The shares sum to the capacity when some demand is unmet, else to the demands. |
| Allocation.FairIsMaxMin | src/lab_commons/hpc/allocation.py:205-221 | No feasible allocation gives a stream more without giving less to one that had no more. |
| Allocation.MaxMinIsFair | src/lab_commons/hpc/allocation.py:205-221 | A max-min allocation is the fair one: there is no other. |
| Allocation.MoreCapacityLowersNobody | src/lab_commons/hpc/allocation.py:205-221 | Raising the capacity lowers no share. |
| Allocation.OneDemandRaisesNobodyElse | src/lab_commons/hpc/allocation.py:205-221 | Raising one demand raises nobody else's share. |
| Allocation.DerivedShare | src/lab_commons/hpc/allocation.py:238-241 | A session asking everything gets no less than any other stream and no less than an even part, and the pool is spent exactly. |
| Allocation.RoomIsExact | src/lab_commons/hpc/allocation.py:265-275 | A session may start so many more tasks exactly when its task, CPU and memory caps all hold with them. |
| ArraySpec.Spec | src/lab_commons/hpc/cluster.py:266-275 | The printed spec is the runs of consecutive indices, joined, with at least one task at a time. |
| ArraySpec.Expand | src/lab_commons/hpc/sacct.py:27-33 | Reading part by part gives the whole expansion, or nothing where a part is no number or range. |
| ArraySpec.DigitsReadBack | src/lab_commons/hpc/cluster.py:274-275 | A printed number is read back as itself and is nothing but digits. |
| ArraySpec.RunsList | src/lab_commons/hpc/cluster.py:268-273 | The runs list exactly the indices, in order. |
| ArraySpec.SplitJoin | src/lab_commons/hpc/sacct.py:30-30 | Splitting at commas undoes joining with them. |
| ArraySpec.SpecReadsBack | src/lab_commons/hpc/cluster.py:266-275 | For every non-empty sequence of indices and every throttle, reading the printed spec gives the very sequence, bare or bracketed. |
| ArraySpec.EmptySpecIsRefused | src/lab_commons/hpc/sacct.py:27-33 | The spec of no indices is refused by the reader. |
| ArraySpec.RunsAreLongest | src/lab_commons/hpc/cluster.py:268-273 | The runs are maximal: none ends where the next begins. |
| ArraySpec.DashOnlyInRanges | src/lab_commons/hpc/cluster.py:274-274 | A run is printed with a dash exactly when it holds more than one index. |
| ArraySpec.ThrottleReadsBack | src/lab_commons/hpc/cluster.py:275-275 | What follows the percent sign reads back as the throttle, at least one. |
| Learned.LearnRound | src/lab_commons/compute/learned.py:187-202 | Folding kind by kind in place is the round's delta on the table. |
| Learned.FoldsTheDelta | src/lab_commons/compute/learned.py:187-202 | Name by name: the round's outcome where it set, changed or dropped a name, the table's own entry everywhere else. |
| Learned.FoldsIntoItsStart | src/lab_commons/compute/learned.py:187-202 | Folded into the table it started from, a round leaves exactly its own view. |
| Learned.FoldsOnce | src/lab_commons/compute/learned.py:187-202 | Folding a round twice is folding it once. |
| Learned.RoundsCommuteExactly | src/lab_commons/compute/learned.py:187-202 | Two rounds fold to the same in either order exactly when they agree on every name both touched. |
| Graph.Order | src/lab_commons/compute/graph.py:57-69 | The loop lists the layers of ready units in name order, or finds none ready. |
| Graph.OrderLists | src/lab_commons/compute/graph.py:57-69 | An order lists every unit once, each after all it reads. |
| Graph.OrderExactly | src/lab_commons/compute/graph.py:57-69 | There is an order exactly when the graph has no cycle. |
| Graph.Construct | src/lab_commons/compute/graph.py:28-39 | A graph is refused exactly when an edge names no declared output or there is a cycle. |
| Graph.Dependants | src/lab_commons/compute/graph.py:48-55 | The dependants of a unit are exactly those with a path of reads to it. |
| Execute.Place | src/lab_commons/compute/execute.py:253-310 | A unit has run to a result exactly when it may run here, its engine is present, its demand is admitted, its entry finished and every declared output is among the files it wrote; the result is those files. It has failed exactly when it ran and one was missing or it raised, and is offered exactly when it did not run, may leave this host, there is somewhere to offer it and it may be placed elsewhere. |
| Execute.NothingMissing | src/lab_commons/compute/execute.py:330-337 | When every upstream unit produced its result, every output a unit reads is there. |
| Execute.HashTells | src/lab_commons/compute/execute.py:230-238 | A hash names what a unit computes and, under each of its inputs, the content of that file or of the output it reads. |
| Agreement.UnstoredIsFirst | src/lab_commons/compute/execute.py:230-238 | A unit whose hash is not in the store is the first at it: nothing it reads, directly or through others, runs to a result of that hash. |
| Agreement.CacheAnswers | src/lab_commons/compute/execute.py:230-238 | Where twins agree, a cache hit is a result stored before the run, the unit's own outcome, or for a unit that is not the first at its hash that of a twin that came first. |
| Agreement.AnswersOnce | src/lab_commons/compute/execute.py:230-238 | Where twins agree, a unit has only one answer at a hash, a run and a cache hit told apart by nothing. |
| Agreement.OneOutcomeIsEnough | src/lab_commons/compute/unit.py:192-205 | Where what one unit of a hash runs to, every unit of it would, twins agree. |
| Execute.FinishKeeps | src/lab_commons/compute/execute.py:219-222 | Taking a finished unit off the queue keeps every unit settled at its own hash and no hash run twice to a result. |
| Executor.DecideReady | src/lab_commons/compute/execute.py:208-218 | Deciding the ready units in turn keeps the run sound and in agreement with every finished run whose twins agree, starts no running hash, leaves a unit that was ready waiting only while its hash is being run, and settles or starts some unit when none was running. |
| Executor.Run | src/lab_commons/compute/execute.py:198-228 | For every completion order the run ends with every unit settled, no hash started while running, none run twice to a result, and every unit settled as in any finished run whose twins agree. |
| Executor.EvaluateSound | src/lab_commons/compute/execute.py:198-238 | Evaluating one unit after another in an order keeps the same promises. |
| Executor.AgreesWithSequential | src/lab_commons/compute/execute.py:198-238 | Where the units that come first at one hash in the sequential run agree on what they run to, every completion order settles every unit as the sequential run does, a run and a cache hit told apart by nothing. |
| Executor.SkippedExactly | src/lab_commons/compute/execute.py:230-234 | The skipped units are exactly the dependants of units that failed, were refused or were offered elsewhere. |
| Executor.WhatComesOfEach | src/lab_commons/compute/execute.py:198-310 | Of every unit of a run: skipped exactly when something it reads was skipped, failed, refused or offered; else settled at the hash of what it read, from the store as it was or as a unit that computes the same ran to it, or as what this box made of it, and stored when it is a result. |
| Executor.TwinsNeedOneOutcome | src/lab_commons/compute/unit.py:192-205 | A hash leaves out the demand: the smallest graph on which two units of one hash settle differently in two valid orders. |
| Twins.TwinsSettleDifferently | src/lab_commons/compute/execute.py:198-238 | For all two units of one hash, neither reading the other, of which the one runs to a result the other does not give: where the hash is not stored once all they read is settled, two valid orders settle the other differently. |
| Twins.OrdersAgreeExactly | src/lab_commons/compute/execute.py:198-238 | Every valid order settles every unit as the sequential run does if and only if, of the units that come first at one hash there, not stored before and neither reading the other, what one runs to a result all would. |
## Left out

- Starvation.NoStarvation: assumes a closed world (constant outside use, each claim within its declaration), orderly looks by other processes holding no claim on current readings, no `declare`, a head whose memory is whole bytes, and no seats-only ticket contending for a seat with a head that wants cores or memory, because such an admission delays the head unseen (`BoxWitnesses.ASeatsOnlyJumperDelaysTheHead`); the bound moves where the head's fit is taken over a row due since, because without that term it is false.
- BoxRuns.NeverOverCommits: admissions by a process holding an un-kept claim are excluded, because the code counts its own claim only for what it uses and `BoxWitnesses.AHolderMayOverCommit` then passes the size.
- Order.BackfillNeverDelays: the jumper's process is one the reading does not name, and no held row is overdue; `Order.OverdueRowsHideADelay` says what happens otherwise.
- World.CurrentRoom: no observed or unreadable seat; the release of claims does not give observed seats back in the code either.
- Executor.AgreesWithSequential: stated where twins agree, because orders differ exactly where they do not (`Twins.OrdersAgreeExactly`).
- Execute.Place: the store's alarm over a differing result already stored, which only another writer of the store can cause.
- Ledger.LedgerFile.Adopt: the check and the hand-over are one step, where the code takes two; where the row goes between them the hand-over changes nothing, which is the step on any rows in `BoxRuns`, and the release at the end is `Drop`.
- Gather.RunFile.GatherRound: a round's clock and losses are not kept, and growth (`Growth.GrownAfter`) is kept beside the run file.
- Executor.Run: assumes that units that compute the same declare the same outputs; a process that dies mid-run and resumes, the journal, interrupts, other hosts writing the shared store meanwhile, and the ledger's own waiting are not modelled, an attempt being one answer of the machine.
- Balance.NoShardIsEmpty: assumes positive estimates; an estimate of zero may leave a shard empty.
- Submits.SubmitRound: the plan's cut of each class is any tiling of it and the grant any grant; an array's throttle and its clock are not modelled.
- Start.SubmitRun: what was collected, handed to other parts or offered by earlier runs, the prices of groups, and whether some grant takes the first round are inputs.
- Measured.KillNeverCheaper: the ask before it is held to the most any grant gives.
- Allocation.DerivedShare: what named sessions leave of the pool is an input, and so is the pool.
- ArraySpec.Expand: `int` reads plain decimal digits only.
- Learned.LearnRound: the table's other keys, its file and the fold of whole forge records are not modelled.
- Rounding to three digits, floating point, and the conversion between bytes and GB, which divides both sides of every comparison: amounts are exact reals and memory is counted in bytes.
- The operating system's name metered beside cores, memory and seats, seats lent by name, and `declare`: no bound holds of them.
- A claim's process is its pid; creation stamps, which tell a reused pid apart, are folded into the processes found gone.
- SQLite, atomic renames, file trust, schema upgrades: each transaction is one atomic step.
- Reading the machine, killing processes, Slurm, ssh, git and uv: their answers are inputs.
- The polling loop of a waiter: a run may hold any sequence of looks.
- Choosing a grant, sizing a plan against quotas and queues, spreading over grants (`span` beyond its split) and re-throttling a live array.
- JSON, TOML and command lines, message texts, the retired spellings of old records, and per-test wall watching.
- `one_wave`'s callers, `worker_gb`, `prior_mb`'s median, `round_losses`, `rank` and the unit vocabulary: easy members.
