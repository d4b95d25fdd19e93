# Lab cluster controller and agent: a verified model

The repository runs a fleet of GPU nodes. A controller keeps labs, rosters and placements in a
database and pushes tasks to an agent on each node; the agent persists tasks, runs them once, and
reports results. This project models the parts of both programs whose correctness cannot be seen
from one function, and proves what they promise over every input and every run.

## The modules

| module | what it models |
|---|---|
| `Prelude` | `Option`, `Result` and a few facts about collections |
| `AgentModel` | the agent's durable state as a transition system: task queue, outbox, journal, worker, sender, with a crash possible between any two writes |
| `Protocol` | the whole system: task log, per-node queues, a network that loses, delays, reorders and replays, all agents, and nodes that lie |
| `Progress` | from every reachable state an open task can still be completed |
| `LabAgent` | the agent's code (journal, receiver, worker, sender), each method a run of `AgentModel` |
| `Hub` | the controller's code for tasks (queue, task log, drain loop, result handler), each method a step of `Protocol` |
| `LabState` | labs, nodes, students, placements and tasks, and every operation on them as a function |
| `LabInvariants` | rosters and accounts agree after every operation |
| `LabTeardown` | deleting a lab: clients first, orphans last |
| `LabOwners` | cold-storage owners outlive their SMB clients |
| `LabCold` | shared cold data is cleaned up exactly once |
| `LabTasks` | every change to placements and accounts is queued for the node it concerns |
| `LabRuns` | the four results above over whole runs, and a run that shows why one of them needs a hypothesis |
| `LabController` | the controller's code over its tables, proved to do what `LabState` says |
| `Csv` | the CSV reader, against every writer that follows section 2 of RFC 4180 |
| `RosterPlan`, `RosterImport` | planning a roster import, and applying the plan in a transaction |
| `RosterFile` | what an import does in terms of the cells of its file: refused rows, conflicts, plan and tables |
| `Backup` | which backups a prune keeps, over any history of the backup target |
| `Schedule` | the backup schedule: wall-clock anchoring and grid arithmetic |
| `RateLimit` | the token buckets of the limiter and of each hub socket |
| `GpuKiller` | the idle-GPU killer over any run of evaluations |
| `Recreate` | recreating a container with rollback, with every command allowed to fail |
| `Promotion` | promoting a student's directory to a dataset, with every command allowed to fail |

Code that changes state is a class or a loop here too, and its contract equates the new state with a
function of the old one; the properties are then proved about those functions. A queue job that is
claimed and not acknowledged becomes claimable again and is never dropped, which is what the queue
library promises. Where a step may fail, every combination of failures is possible, and a failed
command may still have taken effect. How the steps of a call go is an argument of the method or a script of
the object, so that a contract can say what the call does for each outcome; what is said for every argument
holds for every combination of failures.

A node is identified by its name, as the hub identifies it, and a lab likewise, because that is how
results find their rows. A listing argument of an operation is the order in which a query returned its
rows; the theorems hold for every order.

## What the proofs found

- **Deleting a node keeps its queue.** The comment at `controller/src/lib/nodes.ts:134-135` says the
  node's queued tasks are cleared; the code deletes the task rows but not the queue. No task queued
  before is pushed to that name again, in any continuation, if and only if the queue is empty at the
  deletion (`Protocol.DeletionIsCleanIffQueueEmpty`). Apart from that, a frame already on the wire can
  still be persisted after the deletion, with no row left for it (`Protocol.WiredFramesOutliveTheNode`).
- **A late create result undoes a teardown.** `controller/src/lib/hub.ts:297-303` does not look at the
  row's state. A client told to tear down while its creation still runs becomes active again after its
  owner started to go (`LabRuns.LateCreateResultBreaksOwners`, a run from the empty database). Among all
  operations exactly the stale results break the rule (`LabRuns.StepKeepsOwnersIffNotStale`).
- **A result that names a blank lab loses the cold cleanup.** `controller/src/lib/hub.ts:290-337` lets
  the result's lab name win over the task's, and a blank one ends the handler after the row was closed.
  If that result completes a removal with nodes to clean up, no cleanup is ever queued
  (`LabRuns.SuppressedResultLosesTheCleanup`, a run from the empty database); every other result keeps
  the count right (`LabCold.HandleResultKeepsColdIffNotSuppressed`).
- **A second recreate can lose the original.** When a rollback fails, the original stays under
  `<name>-old`, and the next recreate may delete it (`Recreate.TwoCallsLoseTheOriginal`, from any engine
  with a container to recreate). What stands under `<name>-old` is safe from the next call, whatever
  fails in it, if and only if nothing stands under `<name>` (`Recreate.AsideIsSafeIffNothingToReplace`).
- **A recreate can leave the lab stopped.** The comment at `agent/src/lab_agent/containerops.py:91`
  promises a working container on every failure. A failure at lines 112-122 restarts nothing: the
  original runs afterwards only if stopping it had no effect (`Recreate.EarlyFailureNeverRestarts`, and
  `Recreate.EarlyFailureCanStopTheLab` for a run).
- **A partial `rmtree` can lose data.** The handler at `agent/src/lab_agent/studentops.py:48-55` destroys
  the dataset with the full copy and moves back what is left of the staged directory. A call loses files
  if and only if that delete fails after it has removed something and the destroy takes effect
  (`Promotion.FilesLostIffDestroyedAfterPartialDelete`); from any home with a file, one failing delete is
  enough (`Promotion.PartialDeleteLosesAFile`), and a second failure saves it
  (`Promotion.FailedDestroyKeepsTheFile`).
- **A last record that is one empty field disappears** unless a line ending follows it
  (`Csv.ReadingInvertsWriting`, both directions).
- **The schedule's anchor is wrong exactly in the gap of a forward clock change**, and there by the size
  of the change (`Schedule.WrongExactlyInTheGap`, `Schedule.GapIsOffByTheChange`, `Schedule.GapExists`).
- **`nextBackupRun` and `backupDue` agree at one `now`**, and the correcting loop of `slotAfter` never
  runs. Across a midnight they need not agree (`Schedule.WeeklyRunsDaily`).
- **Backups run more often than every `backupIntervalHours`.** `controller/src/lib/settings.ts:118-121`
  promises a run every so many hours, through clock changes; `controller/src/lib/maintenance.ts:154-183`
  moves the grid to a new anchor every local day. Where the clock never changes, no run of the ticker
  makes more backups than scheduled if and only if the interval divides the day
  (`Schedule.AsScheduledIffIntervalDividesDay`); a weekly schedule runs daily (`Schedule.WeeklyRunsDaily`).
  In general two days' grids agree if and only if their anchors are a whole number of intervals apart
  (`Schedule.GridsAgreeIffAnchorsDo`), which a clock change breaks: the default daily backup runs twice on
  the day of 25 hours (`Schedule.DailyRunsTwiceOnTheLongDay`).
- **A crowd of new keys resets a spent bucket.** Over the cap, `controller/src/lib/ratelimit.ts:27-31`
  throws out the oldest key even if its bucket is empty. A prune leaves a key's credit alone if and only if
  it does not cut the key short (`RateLimit.PruneKeepsCreditIffNotCutShort`). Login keys contain what the
  visitor typed, so the table can be filled: from an empty table, at one instant and with the login limit,
  the key gets a sixth call through where the burst is five (`RateLimit.CutShortKeyExceedsTheBound`). The
  bound holds for every key that is not cut short (`RateLimit.Throughput`).

## Model

| member | source | states |
|---|---|---|
| `AgentModel.InvStep` | agent/src/lab_agent/client.py:142-212 | every step of receiver, worker and sender, a crash or a failed write at any point included, keeps: nothing persisted is lost, results are genuine, handler starts are accounted for, results agree |
| `AgentModel.NothingLostStep` | agent/src/lab_agent/client.py:157-196 | the order journal, outbox, acknowledge keeps every persisted task queued or answered |
| `AgentModel.RunsBoundedStep` | agent/src/lab_agent/client.py:182-196 | each handler start stays covered by a journal entry, an interruption or a lost entry |
| `AgentModel.ResultsAgreeStep` | agent/src/lab_agent/client.py:182-193 | while no journal entry was lost, everything ever sent for a task equals the journaled outcome |
| `AgentModel.GenuineStep` | agent/src/lab_agent/client.py:157-193 | an emitted result was produced by a handler for a persisted task of that id; a receipt names a persisted task |
| `AgentModel.ReachesInv` | agent/src/lab_agent/client.py:142-212 | every run of agent steps keeps all of these |
| `Protocol.TerminalRowsAreEarned` | controller/src/lib/queue.ts:154-177 | in every run, a terminal row of a node that follows the protocol means that node executed that very task with that outcome and handed exactly that result to a socket |
| `Protocol.TerminalRowsAreFinal` | controller/src/lib/queue.ts:154-177 | in every continuation of a run, a terminal row keeps its state and its effects never recur |
| `Protocol.EffectsAtMostOnce` | controller/src/lib/hub.ts:268-349 | the lifecycle effects of a result begin at most once per task id, and only when its row closes |
| `Protocol.NoEnqueuedTaskIsDropped` | controller/src/lib/hub.ts:205-231 | a task leaves its queue only onto the wire of its own node, and no other node ever persists it |
| `Protocol.NoAcceptedTaskIsLost` | agent/src/lab_agent/client.py:157-212 | in every reachable state a persisted task is still queued, or a result for it waits or was handed over, or its stored copy was corrupted |
| `Protocol.BoundedReexecution` | agent/src/lab_agent/client.py:182-196 | however often a frame is redelivered, a handler starts at most once plus its interruptions and lost journal entries |
| `Protocol.AllResultsAgree` | agent/src/lab_agent/localq.py:71-92 | within the journal's retention, any two results a node emits for a task carry the same outcome |
| `Protocol.ReceiptsAreTruthful` | controller/src/lib/queue.ts:183-189 | a received mark on a row means its node persisted that very task |
| `Protocol.RogueNodesHarmOnlyThemselves` | controller/src/lib/queue.ts:146-177 | over any run in which rogue nodes forge frames, no row or effect of another node's task changes, no queue, and no other agent |
| `Protocol.ForeignRowsAreSafe` | controller/src/lib/queue.ts:162-177 | one frame changes no row and no effect of another node's task |
| `Protocol.DeletionIsCleanIffQueueEmpty` | controller/src/lib/nodes.ts:134-174 | after a node's deletion no continuation puts a task issued before it on the wire to that name, if and only if no job of the node is queued at the deletion |
| `Protocol.WiredFramesOutliveTheNode` | controller/src/lib/nodes.ts:167-177 | a frame on the wire when its node is deleted can still be persisted there, and no row is left to record it |
| `Protocol.SystemInvStep` | controller/src/lib/hub.ts:205-349 | each step of controller, network or agent keeps rows earned, agents sound and only pushed tasks accepted |
| `Progress.DeliveredResultClosesRow` | controller/src/lib/hub.ts:268-280 | in the whole system, a delivered result for an open row of its node closes the row with that outcome and begins its effects, unless the controller crashes in between, and changes nothing else |
| `Progress.EveryOpenTaskCanClose` | controller/src/lib/hub.ts:205-349 | from every reachable state, whatever was lost or interrupted before, some continuation closes any open row of a node that may connect or whose frame was sent, and begins its effects exactly once |
| `LabAgent.TaskJournal.Get` | agent/src/lab_agent/localq.py:71-81 | returns the readable entry; an unreadable one is a miss |
| `LabAgent.TaskJournal.Put` | agent/src/lab_agent/localq.py:83-92 | the new entry replaces the old and survives; exactly the other entries older than the retention go |
| `LabAgent.LabAgent.Restart` | agent/src/lab_agent/localq.py:101-116 | a restart keeps what is on disk and counts a running handler as interrupted |
| `LabAgent.LabAgent.Receive` | agent/src/lab_agent/client.py:142-160 | a run of the model: malformed frames do nothing, a receipt is queued only after its task is persisted; a well-formed task is persisted and its receipt queued exactly as far as the two writes succeed |
| `LabAgent.LabAgent.TaskWorkerPass` | agent/src/lab_agent/client.py:163-196 | a run of the model that ends idle; for each offered job and each outcome of the writes: an undecodable job is dropped, a journaled task is answered from the journal without a handler start, an unknown one is run once, journaled, queued and acknowledged in that order |
| `LabAgent.LabAgent.RecordResult` | agent/src/lab_agent/client.py:192-192 | a committed result is in the journal, and expired entries are accounted as lost |
| `LabAgent.LabAgent.OutboxSenderPass` | agent/src/lab_agent/client.py:198-212 | a run of the model: the frame offered is handed over if and only if the socket takes it, and leaves the outbox if and only if it was handed over and acknowledged |
| `Hub.TaskHub.EnqueueTask` | controller/src/lib/queue.ts:68-100 | queue first, then task log: a queued job, and a waiting row unless a crash comes between the two |
| `Hub.TaskHub.MarkTaskState` | controller/src/lib/queue.ts:154-177 | changes the state of the row, and only that, exactly when it belongs to the node and is not terminal, and says so |
| `Hub.TaskHub.MarkTaskReceived` | controller/src/lib/queue.ts:183-189 | marks only a row of the calling node |
| `Hub.TaskHub.BumpAttempts` | controller/src/lib/queue.ts:192-196 | counts an attempt on the calling node's row only |
| `Hub.TaskHub.PushJob` | controller/src/lib/hub.ts:219-229 | send, acknowledge, mark, count: for each point of failure, what is on the wire, in the queue and in the row; an unsent job stays queued |
| `Hub.TaskHub.DrainNode` | controller/src/lib/hub.ts:205-231 | takes the offered jobs of this node in order, at most 20, stops only after a failure or when offered none, and puts everything offered on a healthy wire; nothing happens on a stale socket or for a node that may not connect |
| `Hub.TaskHub.DeleteNode` | controller/src/lib/nodes.ts:167-177 | exactly the node's rows go, it may no longer connect, and its queue stays as it was |
| `Hub.TaskHub.HandleResult` | controller/src/lib/hub.ts:268-284 | an open row of the node is closed with this outcome and its effects begin once, unless a crash comes in between; any other result changes nothing |
| `Hub.TaskHub.Ingest` | controller/src/lib/hub.ts:245-253 | a frame does to the tables what the protocol's step says; a receipt marks, a result closes, and only a row of the sender's node |
| `LabInvariants.AddStudentKeeps` | controller/src/lib/students.ts:148-173 | enrolling keeps every placement's accounts equal to its lab's roster, whether it succeeds or throws |
| `LabInvariants.AddStudentEnrolls` | controller/src/lib/students.ts:148-173 | succeeds exactly for a known lab and a student who is not refused and not on the roster; then the student joins this roster alone and has an account on each of its placements |
| `LabInvariants.EnsurePiKeeps` | controller/src/lib/students.ts:58-94 | succeeds exactly when the lab exists, the username is not blank, the student is not refused and no other PI is designated; then the student is the PI, on the roster and on every placement, with the given contact details on both; a refused change leaves all in order even when it created the student |
| `LabInvariants.FoundOrCreated` | controller/src/lib/students.ts:104-137 | a non-blank student id is looked up first, then the username; otherwise a row with exactly what was asked for and the least free user id; the tables stay unique and old rows untouched; refuses exactly when nobody matches and no user id is free or a blank student id is taken |
| `LabInvariants.CopyingEnrollsTheRoster` | controller/src/lib/students.ts:181-203 | copying never throws and enrolls everybody listed, nobody else, in that lab only |
| `LabInvariants.RemoveStudentKeeps` | controller/src/lib/students.ts:209-248 | succeeds exactly for a member who is not the PI, and then the student is on neither the roster nor any placement |
| `LabInvariants.ImportRosterKeeps` | controller/src/lib/labimport.ts:322-354 | after an import and its provisioning, accounts and roster agree on every placement |
| `LabInvariants.ProvisionAllEnrolls` | controller/src/lib/placements.ts:343-379 | provisioning adds exactly this account on exactly these hosts, once |
| `LabTeardown.CreatePlacementKeeps` | controller/src/lib/placements.ts:196-298 | a new placement carries the whole roster |
| `LabTeardown.GrantedIffGrantable` | controller/src/lib/placements.ts:196-258 | a placement is granted exactly for a valid request on a known node that fits the lab, when neither the pair nor the port is taken; an SMB node fits only with a live mount, its owner's placement active and the same mapping |
| `LabTeardown.CreatedPlacementIs` | controller/src/lib/placements.ts:260-305 | a granted placement starts provisioning with the whole roster, and its node is told to create the lab |
| `LabTeardown.TearDownOrderIsClientsFirst` | controller/src/lib/labs.ts:135-139 | the sorted order covers the lab's hosts and puts every SMB client before every local node |
| `LabTeardown.NeverBlocked` | controller/src/lib/placements.ts:797-810 | in that order the owner guard never refuses |
| `LabTeardown.DestroyLabTearsDownEverything` | controller/src/lib/labs.ts:131-169 | one call never throws; every placement of the lab is deleting or gone, other labs' are untouched, and the lab goes exactly when no host had to be told |
| `LabTeardown.DestroyLabDropsOrphans` | controller/src/lib/labs.ts:154-167 | a lab that goes at once takes exactly the students of its roster who are on no other; a lab that stays keeps every student |
| `LabTeardown.DroppingOrphansIsSafe` | controller/src/lib/labs.ts:154-167 | orphan deletion never meets the RESTRICT key and deletes exactly the listed students on no other roster |
| `LabTeardown.OrphansAreFree` | controller/src/lib/db.ts:653-653 | a student on no roster is no lab's PI and has no account |
| `LabTeardown.DestroyLabSparesOtherLabs` | controller/src/lib/labs.ts:131-169 | no member or PI of another lab is deleted |
| `LabOwners.CreatePlacementOwners` | controller/src/lib/placements.ts:205-243 | a client is admitted only while its owner's placement stands |
| `LabOwners.DestroyPlacementOwners` | controller/src/lib/placements.ts:782-830 | neither teardown nor force-delete removes an owner from under a live client |
| `LabOwners.SetColdStorageKeeps` | controller/src/lib/nodes.ts:209-253 | an owner is always a local node, and changing storage strands no placement |
| `LabOwners.DeleteNodeOwners` | controller/src/lib/nodes.ts:142-177 | deleting a node, forced or not, leaves no live client with a missing owner |
| `LabOwners.ResultKeepsOwnersIffNotStale` | controller/src/lib/hub.ts:297-306 | a result keeps owners outliving clients if and only if it is not stale |
| `LabOwners.HandleResultKeepsGood` | controller/src/lib/hub.ts:268-338 | results, whatever lab they name, keep rosters, keys and the ownership graph |
| `LabCold.RemovalReachesEveryPlacement` | controller/src/lib/students.ts:228-245 | a removal is queued on every placement; its cleanup nodes are exactly the lab's local hosts |
| `LabCold.CleanUpOnce` | controller/src/lib/placements.ts:580-595 | the cleanup loop queues exactly one task for each listed node, repeats in the list included |
| `LabCold.CompletionCleansUp` | controller/src/lib/placements.ts:560-597 | a completed removal queues cleanups of this student's data in this lab on each of its nodes, and nothing else; an incomplete one queues none |
| `LabCold.HandleResultKeepsColdIffNotSuppressed` | controller/src/lib/hub.ts:290-338 | every result, repeated ones included, keeps the number of cleanups right if and only if it is not the completing one with a blank lab name |
| `LabRuns.StepKeepsGood` | controller/src/lib/placements.ts:196-881 | each of the sixteen operations keeps rosters, accounts, keys and ownership in order |
| `LabRuns.RostersStayInSync` | controller/src/lib/students.ts:58-248 | in every run, placement accounts equal the lab's roster and each PI is on it |
| `LabRuns.OwnersAreNeverClients` | controller/src/lib/nodes.ts:209-253 | in every run, an SMB node's owner is a local node without an owner of its own |
| `LabRuns.ReachableLabsTearDown` | controller/src/lib/labs.ts:131-152 | in every reachable state one call tears a lab down, with or without force |
| `LabRuns.StepKeepsOwnersIffNotStale` | controller/src/lib/hub.ts:297-306 | among all operations, exactly the stale results break the rule that owners outlive clients |
| `LabRuns.OwnersOutliveTheirClients` | controller/src/lib/placements.ts:205-243 | in every run without stale results, a live SMB placement's owner has a live placement of the same lab |
| `LabRuns.LateCreateResultBreaksOwners` | controller/src/lib/hub.ts:297-303 | a reachable state in order, and an open create task of a deleting client whose successful result makes the client active while its owner is being torn down |
| `LabRuns.StepKeepsColdIffNotSuppressed` | controller/src/lib/hub.ts:290-338 | among the operations that delete no node, exactly the suppressed results break the count of cleanups |
| `LabRuns.SuppressedResultLosesTheCleanup` | controller/src/lib/hub.ts:290-337 | a reachable state and a successful result after which the removal is complete and its cleanup is missing |
| `LabRuns.ColdDataIsCleanedOnce` | controller/src/lib/placements.ts:560-596 | in runs without node deletion and suppressed results: no cleanup while an account removal of the same removal is not ok, exactly one per owner node once all are |
| `LabTasks.StepTellsNodes` | controller/src/lib/placements.ts:343-379 | every operation queues a task for each placement it creates, retries or tears down and for each account it adds or removes; only a node's own answers and the deletion of a node change placements without one |
| `LabController.Controller.FindOrCreateStudent` | controller/src/lib/students.ts:104-137 | finds by student id, else by username, else creates a row with the least free user id; changes nothing otherwise |
| `LabController.Controller.ProvisionMember` | controller/src/lib/placements.ts:343-379 | adds the account and its task, or nothing when it exists |
| `LabController.Controller.EnsurePiAccess` | controller/src/lib/students.ts:58-94 | does what the operation's function says, and keeps the tables in order |
| `LabController.Controller.AddStudentToLab` | controller/src/lib/students.ts:148-173 | as above, for enrolling |
| `LabController.Controller.CopyMembersTo` | controller/src/lib/students.ts:181-203 | as above, for copying a roster |
| `LabController.Controller.RemoveStudentFromLab` | controller/src/lib/students.ts:209-248 | as above, for removal, with one shared removal id |
| `LabController.Controller.RemoveMember` | controller/src/lib/placements.ts:528-549 | queues the account removal and drops the account row |
| `LabController.Controller.ImportRosterFile` | controller/src/lib/labimport.ts:278-356 | a failed import changes nothing; a committed one provisions exactly the newly joined on every host |
| `LabController.Controller.NextSshPort` | controller/src/lib/placements.ts:140-150 | the least port of the range that is free on the node, or none exactly when all are taken |
| `LabController.Controller.GrantPlacement` | controller/src/lib/placements.ts:196-298 | granted exactly when the request fits; then the placement carries the roster and its node is told; otherwise nothing changes |
| `LabController.Controller.RevokePlacement` | controller/src/lib/placements.ts:782-789 | refused exactly while live clients mount its storage, and then nothing changes; otherwise marked deleting with a teardown queued, and owners still outlive clients |
| `LabController.Controller.PurgePlacement` | controller/src/lib/placements.ts:818-830 | removes an offline node's placement under the same guard, or changes nothing |
| `LabController.Controller.RetryPlacement` | controller/src/lib/placements.ts:767-776 | only a failed placement goes back to provisioning, and no other changes |
| `LabController.Controller.DeleteLab` | controller/src/lib/labs.ts:131-169 | never throws; every placement of the lab is torn down; the lab goes at once exactly when all its nodes are purged, with exactly the students who are on no other roster |
| `LabController.Controller.CompleteStudentRemoval` | controller/src/lib/placements.ts:560-596 | queues the missing cleanups once every account removal succeeded |
| `LabController.Controller.HandleTaskResult` | controller/src/lib/hub.ts:268-338 | closed tasks change nothing; an open one is closed, and the placement its result is about becomes active or failed, keeps deleting, or goes, case by case; owners still outlive clients if and only if the result is not stale, and cleanups stay counted if and only if it is not suppressed |
| `LabController.Controller.SetNodeColdStorage` | controller/src/lib/nodes.ts:209-253 | succeeds exactly under the code's conditions, and then sets the backend and the owner of this node alone |
| `LabController.Controller.RemoveNode` | controller/src/lib/nodes.ts:142-185 | succeeds exactly for a known node that is free, or with force offline; then exactly its placements and task rows are gone, its clients have no owner and must be provisioned anew, and owners still outlive their clients; a refusal changes nothing |
| `RosterPlan.IndexStudents` | controller/src/lib/labimport.ts:168-174 | the lookup maps find exactly the stored students by username and by non-blank student id |
| `RosterPlan.PlanRosterImport` | controller/src/lib/labimport.ts:100-262 | the loops compute the phases, whose meaning in cells `RosterFile` states |
| `RosterPlan.CheckSids` | controller/src/lib/labimport.ts:195-202 | one conflict for each entry whose student id an earlier username has |
| `RosterImport.LeastFreeIsLeast` | controller/src/lib/labimport.ts:296-302 | the least free user id, none exactly when the whole range is taken |
| `RosterImport.TakeUid` | controller/src/lib/labimport.ts:296-302 | the search loop finds that id |
| `RosterImport.FreeUidIffRoom` | controller/src/lib/labimport.ts:296-302 | the pigeonhole: a user id is free if and only if fewer than 50 000 students exist |
| `RosterImport.ImportFailsOnlyForUids` | controller/src/lib/labimport.ts:278-336 | a committable file breaks no uniqueness constraint: it applies if and only if the user ids suffice, and leaves the tables sound |
| `RosterImport.HeaderOnlyFileIsImportable` | controller/src/lib/labimport.ts:100-114 | a file with only its header is committable against any sound roster and plans nothing |
| `RosterImport.ImportIsIdempotent` | controller/src/lib/labimport.ts:1-17 | planning the same file after its import is committable and empty |
| `RosterImport.ImportTouchesOnlyTheFile` | controller/src/lib/labimport.ts:278-336 | nobody leaves the roster, only people the file names join, no username or user id changes, students not named stay exactly as they were |
| `RosterFile.RefusedRowsAreTheUnacceptable` | controller/src/lib/labimport.ts:100-149 | which files are refused before their rows, and otherwise exactly which rows are refused, each once, in order, with the first thing wrong with it |
| `RosterFile.CommittableIffConsistent` | controller/src/lib/labimport.ts:100-224 | a file is committable if and only if its size and header pass, every row is acceptable, and it contradicts neither itself nor the students on record |
| `RosterFile.PlanSaysWhatTheFileSays` | controller/src/lib/labimport.ts:180-260 | whom a committable plan creates and changes, who joins, and what changes about the PI, each with the first non-blank trimmed cell of the right column among the rows of that username or of the PI |
| `RosterFile.ImportShowsTheFile` | controller/src/lib/labimport.ts:278-336 | after an import everybody mentioned is there, on the roster, and shows those cells over what was stored; nobody else is touched; the lab shows the PI of the file |
| `RosterImport.RosterStore.ApplyRosterImport` | controller/src/lib/labimport.ts:278-343 | commits exactly when the plan is committable and the writes succeed, and otherwise changes nothing |
| `RosterImport.RosterStore.CreateStudents` | controller/src/lib/labimport.ts:312-315 | creates in order, fails at the first user id or uniqueness failure |
| `RosterImport.RosterStore.JoinStudents` | controller/src/lib/labimport.ts:327-335 | adds exactly the named students, aborts exactly on an unknown name |
| `Csv.ReadRecords` | controller/src/lib/csv.ts:12-51 | the index loop computes the character-by-character reader |
| `Csv.ReadingInvertsWriting` | controller/src/lib/csv.ts:12-51 | for every document and every legal quoting and line ending, reading inverts writing if and only if the text does not end in a lone empty field, and then only that record is lost |
| `Csv.ReadDocument` | controller/src/lib/csv.ts:12-51 | the reader appends the records of a written document to any records read before it |
| `Csv.RowLookup` | controller/src/lib/csv.ts:53-62 | a column is found under its last header, with the trimmed cell or blank |
| `Csv.TrimIsCore` | controller/src/lib/csv.ts:53-61 | trimming takes the spaces off both ends and nothing else |
| `Csv.TableRowByRow` | controller/src/lib/csv.ts:53-62 | blank records are skipped wherever they stand, the first other one is the header, each later one a row under it |
| `Backup.PathIndependence` | controller/src/lib/backup.ts:111-141 | selecting from a selection plus new backups equals selecting from everything, for any counts and any buckets |
| `Backup.TierOutcast` | controller/src/lib/backup.ts:120-130 | forgetting what a tier drops changes nothing it keeps |
| `Backup.TierHeredity` | controller/src/lib/backup.ts:120-130 | what a tier keeps of a whole it keeps of every part |
| `Backup.KeepSize` | controller/src/lib/backup.ts:107-117 | the kept set never exceeds the sum of the four counts |
| `Backup.TierKeepsTheNewestBuckets` | controller/src/lib/backup.ts:120-130 | a tier keeps one backup for each of the most recent buckets, as many as its count or all; each the newest of its bucket and newer than everything in a bucket left out |
| `Backup.KeepPerBucket` | controller/src/lib/backup.ts:120-130 | the greedy pass keeps exactly the newest backup of each of the most recent buckets |
| `Backup.SelectKeep` | controller/src/lib/backup.ts:111-141 | the loops compute the union of the four tiers |
| `Backup.RetainedForever` | controller/src/lib/backup.ts:83-157 | after any history of uploads, prunes, empty listings and failed deletes, the target holds the selection from everything ever uploaded |
| `Backup.CompletePruneIsExact` | controller/src/lib/backup.ts:143-157 | a prune without failures leaves exactly that selection |
| `Backup.Target.PruneBackups` | controller/src/lib/backup.ts:143-157 | for each outcome of the delete requests: exactly the unkept entries go whose request took effect before one broke; with no failure exactly the selection from the whole past is left; an empty listing changes nothing |
| `Backup.Target.BackupNow` | controller/src/lib/backup.ts:83-105 | succeeds exactly when both uploads do and no request breaks; without a failure exactly the selection from the whole past is left; a failure anywhere keeps what the selection keeps |
| `Schedule.WallClockToUtc` | controller/src/lib/maintenance.ts:139-151 | the two-pass loop returns an instant that shows the wall clock whenever, within one clock change, any instant does |
| `Schedule.TwoPassesSuffice` | controller/src/lib/maintenance.ts:139-151 | with at most one clock change in reach, the result shows the wanted wall clock if and only if some instant does |
| `Schedule.WrongExactlyInTheGap` | controller/src/lib/maintenance.ts:139-151 | the result is wrong, and the wall clock shown by no instant, if and only if it lies in the gap that the change skips |
| `Schedule.GapIsOffByTheChange` | controller/src/lib/maintenance.ts:139-151 | in the gap the result is off by exactly the size of the change |
| `Schedule.GapExists` | controller/src/lib/maintenance.ts:139-151 | a clock and a wall-clock reading in such a gap |
| `Schedule.OnePassIsNotEnough` | controller/src/lib/maintenance.ts:148-149 | an offset and wall clock that the first pass gets wrong |
| `Schedule.BackupGrid` | controller/src/lib/maintenance.ts:154-183 | no grid exactly when off, misconfigured or without a timezone; otherwise at the interval of the settings through the anchor's time of day on today's local date |
| `Schedule.FormulaIsTheSlot` | controller/src/lib/maintenance.ts:189-190 | the closed formula is the least grid instant after the reference |
| `Schedule.FormulaIsStrictlyAfter` | controller/src/lib/maintenance.ts:189-191 | the correcting loop never runs |
| `Schedule.SlotAfter` | controller/src/lib/maintenance.ts:186-193 | returns that least instant |
| `Schedule.BackupDue` | controller/src/lib/maintenance.ts:205-208 | due if and only if a grid instant lies after the last run and not after now |
| `Schedule.NextBackupRun` | controller/src/lib/maintenance.ts:196-202 | the first grid instant after the last run and within one interval of now, which is not after now if and only if a backup is due |
| `Schedule.TickerServesEverySlot` | controller/src/lib/maintenance.ts:154-183 | over any run of ticks, with a grid re-anchored at will, every instant of the grid in force has been served by each tick |
| `Schedule.GridsAgreeIffAnchorsDo` | controller/src/lib/maintenance.ts:173-182 | two days' grids have the same instants if and only if their anchors are a whole number of intervals apart |
| `Schedule.DaysAgreeIffIntervalDividesDay` | controller/src/lib/maintenance.ts:154-183 | where the clock never changes, the grids of all days agree if and only if the interval divides the day |
| `Schedule.NoMoreRunsThanSlots` | controller/src/lib/maintenance.ts:289-300 | while the days' grids agree, no more backups are made than scheduled instants passed |
| `Schedule.AsScheduledIffIntervalDividesDay` | controller/src/lib/settings.ts:118-121 | where the clock never changes, every run of the ticker makes at most the scheduled number of backups if and only if the interval divides the day |
| `Schedule.TooManyBackups` | controller/src/lib/maintenance.ts:154-183 | for every other interval, a run of the ticker that makes too many |
| `Schedule.EveryAnchorIsDue` | controller/src/lib/maintenance.ts:205-208 | a day's anchor that passed since the last run makes a backup due, whatever the interval |
| `Schedule.WeeklyRunsDaily` | controller/src/lib/maintenance.ts:196-208 | a weekly schedule announces its next run in a week and runs on every one of any number of days |
| `Schedule.DailyRunsTwiceOnTheLongDay` | controller/src/lib/settings.ts:118-121 | on the morning the clock goes back the default daily backup runs at midnight and again at two |
| `RateLimit.SocketLimit.OnMessage` | controller/src/lib/hub.ts:95-104 | refill at fifty a second up to a hundred, spend one token or refuse |
| `RateLimit.SocketThroughput` | controller/src/lib/hub.ts:95-104 | accepted frames plus tokens in hand never exceed 100 plus 50 per second, in any window |
| `RateLimit.Limiter.Prune` | controller/src/lib/ratelimit.ts:21-32 | up to the cap nothing goes; over it, idle keys go, and of the others the oldest, exactly until the table fits |
| `RateLimit.Limiter.Consume` | controller/src/lib/ratelimit.ts:42-55 | one call's effect on the whole table, which stays within the cap plus one; below the cap: refill up to the burst, spend one token or refuse |
| `RateLimit.PruneKeepsCreditIffNotCutShort` | controller/src/lib/ratelimit.ts:21-32 | a prune leaves a key's credit as it was if and only if it does not drop the key's bucket before it has refilled |
| `RateLimit.CutShortKeyExceedsTheBound` | controller/src/lib/ratelimit.ts:27-55 | a run from the empty table, at one instant and with the login limit, in which a key that is cut short gets six calls through where the burst is five |
| `RateLimit.Throughput` | controller/src/lib/ratelimit.ts:21-55 | a key whose bucket is never dropped before it has refilled is allowed at most burst plus rate times window, whatever other keys do |
| `RateLimit.ThroughputWithoutEviction` | controller/src/lib/ratelimit.ts:42-55 | the same bound for every key that stays in the table, whatever its rate and burst |
| `RateLimit.ThroughputDespiteIdleEviction` | controller/src/lib/ratelimit.ts:21-55 | the same bound when idle buckets are dropped and an hour's refill covers the burst |
| `RateLimit.PacedCallerIsNeverRefused` | controller/src/lib/ratelimit.ts:21-55 | from an empty table on, a caller who waits for a token between calls is never refused, whatever is pruned in between |
| `GpuKiller.Killer.Evaluate` | agent/src/lab_agent/gpu/killer.py:52-101 | the loop does one step per sighting, then forgets absent processes |
| `GpuKiller.EvaluationByPid` | agent/src/lab_agent/gpu/killer.py:52-101 | what one evaluation does to one process depends on its own sighting only |
| `GpuKiller.KillIsJustified` | agent/src/lab_agent/gpu/killer.py:52-101 | a kill outside immediate mode was preceded by an idle stretch seen at every evaluation, a warning after the idle time, and the grace time, with nothing else decided in between |
| `GpuKiller.OnlyEligibleIsActedUpon` | agent/src/lab_agent/gpu/killer.py:41-70 | only a managed, idle, non-exempt process is ever warned or killed |
| `GpuKiller.DecidedExactly` | agent/src/lab_agent/gpu/killer.py:52-101 | exactly when a process is warned and killed, in terms of its idle stretch, the earlier warnings in it, the idle and grace times, and immediate mode |
| `GpuKiller.ImmediateKills` | agent/src/lab_agent/gpu/killer.py:82-85 | in immediate mode every process seen idle is killed at once and forgotten |
| `GpuKiller.DecisionTells` | agent/src/lab_agent/gpu/killer.py:79-96 | a decision carries its process, that process's lab and user, and the whole seconds it was idle |
| `GpuKiller.DecidedOnce` | agent/src/lab_agent/gpu/killer.py:52-101 | one evaluation decides at most once about a process |
| `GpuKiller.IdleProcessIsKilled` | agent/src/lab_agent/gpu/killer.py:52-101 | a process idle at every evaluation is killed within idle plus grace plus two gaps |
| `Recreate.Engine.Create` | agent/src/lab_agent/executors/docker.py:194-212 | a failed run can leave a container behind, under a fresh identity |
| `Recreate.Engine.SetAside` | agent/src/lab_agent/containerops.py:111-114 | the original exists at every moment while it is put aside |
| `Recreate.Engine.RollBack` | agent/src/lab_agent/containerops.py:149-157 | the original survives, and runs under its name when the undo commands succeed |
| `Recreate.Engine.ReplaceExisting` | agent/src/lab_agent/containerops.py:109-164 | the original exists at every moment until a candidate passed its SSH check |
| `Recreate.Engine.RecreateContainer` | agent/src/lab_agent/containerops.py:87-169 | the same for the whole call; success leaves only the candidate, errors only follow failures, nothing else on the engine is touched, and with nothing to replace not even what stands aside; the outcome is the one the commands' outcomes determine |
| `Recreate.OneFailureIsRolledBack` | agent/src/lab_agent/containerops.py:109-164 | whichever single command fails between setting the original aside and the candidate's SSH check, the original runs again under its name and nothing else has changed |
| `Recreate.AsideIsSafeIffNothingToReplace` | agent/src/lab_agent/containerops.py:109-113 | what stands aside survives the next call, whatever fails in it, if and only if no container stands under the name |
| `Recreate.TwoCallsLoseTheOriginal` | agent/src/lab_agent/containerops.py:109-164 | from any engine with a container to recreate, a first call that cannot roll back and a second that succeeds lose the original |
| `Recreate.EarlyFailureNeverRestarts` | agent/src/lab_agent/containerops.py:109-122 | after a failure before the rollback blocks the original runs if and only if it ran and stopping it had no effect |
| `Recreate.EarlyFailureCanStopTheLab` | agent/src/lab_agent/containerops.py:112-114 | such a failure exists from any engine, and leaves the lab's container stopped |
| `Promotion.Home.Undo` | agent/src/lab_agent/studentops.py:48-55 | what the staging path holds is never lost, and is back in place when the undo succeeds; otherwise the dataset is as it was or gone |
| `Promotion.Home.Promote` | agent/src/lab_agent/studentops.py:33-55 | at every moment all files are at the path or staged, unless the delete was partial; success leaves them in the dataset and nothing staged; after a partial delete they survive if and only if the dataset was not destroyed |
| `Promotion.FilesLostIffDestroyedAfterPartialDelete` | agent/src/lab_agent/studentops.py:46-55 | over all outcomes of all commands, a call on a flat home loses files if and only if it promotes, the delete fails after removing something, and the destroy takes effect |
| `Promotion.PartialDeleteLosesAFile` | agent/src/lab_agent/studentops.py:46-55 | from any flat home with a file, a run in which one delete fails, the undo succeeds, and the home comes back without that file |
| `Promotion.FailedDestroyKeepsTheFile` | agent/src/lab_agent/studentops.py:49-50 | the same run with a failing destroy keeps every file |
| `Promotion.Home.EnsureUserDataset` | agent/src/lab_agent/studentops.py:20-55 | all three modes keep the content; a stale staging path stops the call before it touches anything; the outcome is the one the commands' outcomes determine |
| `Promotion.SmoothCallSucceeds` | agent/src/lab_agent/studentops.py:20-55 | when nothing fails the call succeeds, the path shows what it showed before or an empty directory, and a quota makes it a mounted dataset |
| `Promotion.OneFailureIsUndone` | agent/src/lab_agent/studentops.py:33-55 | whichever single command fails before the delete, the call is undone and the home is as it was |

## Left out

- Interleaving of one controller operation with another at an `await`: operations of `LabState` run to completion. The receiver, worker and sender of an agent do interleave, in `AgentModel`.
- A crash inside a lab operation or between a result's row update and its effects is covered by `Protocol` (the effect then never happens), not by `LabRuns`.
- Guaranteed delivery and order from controller to agent: the hub acknowledges as soon as the socket takes a frame, and the code gives neither.
- Reinstalling an agent with an empty state directory: a node keeps one agent history for the whole run.
- Encryption, tokens, passwords, audit records, alerts and mail; encryption is an identity, except that a stored task or journal entry may become unreadable.
- The connection registry, hello handshake, ping timers and offline alerts; the drain loop takes their verdict as two arguments.
- States of single placement members, credentials and completion mail: an account of a placement is present or absent.
- `node.check`, `node.repair`, telemetry, logs, GPU events, quotas, recreating a placement from the controller, settings and pages.
- Validation of lab names, images, container options and quotas: one argument says whether the request passed it; it may depend on the node's backend.
- Case folding is a parameter of the roster import, because the platform's covers all of Unicode; a username that changes when folded again is looked up as given.
- Messages of errors: an issue has a line and a kind. UTF-16 surrogates: lengths and characters are counted per character.
- Labs and nodes by row number: an operation called with the number of a deleted row fails in the code, and finds a new row of the same name here.
- Calendar weeks, months and years: retention holds for any bucket functions. Names of backup files and their parsing.
- `Backup.SelectKeep`: repeated stamps use up the recent allowance, so the union of tiers is stated for distinct stamps; two backups never share a millisecond.
- `Schedule.TwoPassesSuffice`: assumes at most one clock change within reach of the wall clock; with two changes close together the code promises nothing.
- Fractional intervals and floating-point rounding: intervals are whole hours, tokens and times of the GPU killer are reals.
- `GpuKiller.KillIsJustified`: process ids are distinct within one evaluation; immediate mode kills at the first idle sighting without warning.
- `Recreate.Engine.RecreateContainer`: the existence test is truthful and the process does not crash.
- `Promotion.Home.Promote`: the existence tests are truthful, and file contents are a map from names; ownership and modes are not modelled.
- `LabRuns.ColdDataIsCleanedOnce`: excludes node deletion, which deletes the task rows that are counted, and suppressed results, the exact exception that is proved beside it.
- `LabRuns.OwnersOutliveTheirClients`: assumes no stale result; the exact condition is proved beside it.
