# The motor-command queue, modelled and proved in Dafny

A user queues a motor command for a sensor node; the hub that the node is bound to pulls
the command under a timed lease and acknowledges it through sent and executing to an end.
Lapsed leases are requeued and overdue commands are expired by whichever call happens to
come next: there is no timer. The queue relies on two smaller state machines, the binding of a
node to the first hub that reports for it and the provisioning of hubs (associate, claim,
revoke). This project models all three over one set of tables and proves what every run
of them keeps.

`dafny verify dfyconfig.toml` checks the whole project.

## How it is built

* `Model`, `Validation`, `Callers`: tables as values, constants, validators, caller checks.
* `Lifecycle`: the moves of one command, the event each appends, the automaton of histories.
* `Store`: a committed transaction is a sequence of writes, each with the guard under which
  the code issues it.
* `Transactions`: every transaction of the three services as a function from the tables to
  its writes and its reply. `Exec` runs one, `Step` commits it.
* `Effects`, `Runs`: every write that a transaction commits meets its guard; a run is its
  log of writes.
* `Database`, `Control`, `Hubs`: the services as they are written, as classes over shared
  mutable tables. They fetch copies of rows, loop, overwrite fields, save, append events and
  roll back. Every public method is proved to be one legal call (for a create, two) of
  `Exec`, and `Runs.PerformedExtendsRun` makes any interleaving of them a run.
* `Requests`, `HubRequests`, `Replies`: what each call stores and answers, written out from the
  request and the rows before the call.
* `Invariants`, `Safety`, `Windows`, `Leases`, `Queue`, `Creating`,
  `Reconciling`, `Commuting`, `Frontier`, `Timer*`, `Provisioning`: the properties.

The main results are about all runs from any initial hub and node tables: the lazily
cleaned tables are those of a machine with a timer (`TimerRuns.LazyExpiryRefinesTimer`,
`TimerRuns.AnswersAreTheTimers`), one active command per node, row and audit log agree,
leases are disjoint in time and bounded in number, the rate limit holds in every window,
ownership never moves, and pulls and acks of different hubs commute.

## What is assumed

* Each `Transaction` block is one all-or-nothing step. The code takes row locks only at
  internal/service/control_service.go:886-888, so the atomicity of pull and ack is an
  assumption about the database's isolation. The unique indexes hold.
* A create is two steps, reconcile and commit, with any other calls in between; the runs
  even allow each without the other. A status read is a read and a step that checks
  again (`Safety.StatusReadIsOneStep`). `bindNodeToHub` with the insertion of the
  reading, `ClaimHubToken`, `RevokeHub` (a query and a deletion) and `ListHubs` (one query
  for each hub) are several statements without a transaction, and one step each here. Readings, associations, claims and revocations
  run at any time by anybody; a hub may pull or ack whether or not its token row still
  exists, since the middleware does not look at token rows.
* The clock is a parameter of every call, in nanoseconds. Safety properties hold for any clock
  readings; where timing is claimed the readings of successive steps never go
  back (`ClockedRun`). Inside one create the three readings are in order.
* Rows come in `created_at` order, equal times in either order (`Model.IsListing`). Random
  tokens are parameters. A command's public identifier is its row number, and any
  other identifier is a number beyond the table. Hashing is injective.
* At the start there are no commands, events, tokens or readings; hubs and nodes are
  arbitrary but for the unique device ids.

## Where code and expectation differ

* Between its reconcile step and its commit a create does not look at lapsed leases and
  lifetimes again. `TimerCreates.CreateAgrees` proves that this makes exactly two differences to the
  machine with a timer: the create is refused because of a command that is overdue by then,
  or it replays a known key and shows a command that is due for cleanup as still queued
  or leased. `TimerLimits.CreateCanDiffer` and `TimerLimits.ReplayCanDiffer` give a run for each,
  `TimerLimits.AdjacentCreateIsBlockedExactly` and `TimerLimits.AdjacentReplayIsLapsedExactly` say
  exactly when they happen if nothing comes between the two steps. The tables part from those
  of the machine with a timer at the first create so refused, and not before
  (`TimerRuns.FullTimerPartsAtFirstBlock`).
* A command that was sent but not finished by its expiry stays so for ever and refuses every
  new command for its node (`Frontier.StuckCommandBlocksNode`): expiry looks at queued and
  leased commands only, and acks are refused after expiry.
* A hub that reports an overdue command as expired succeeds, because the cleanup of that
  very ack expires it first (`Replies.AckAcceptedExactly`).
* The comment at internal/auth/service.go:300 speaks of revoked token rows, but revoking deletes the
  rows: the flag that `ListHubs` shows is never set (`Provisioning.ListShowsStandingClaims`).

## Model

| member | source | states |
|---|---|---|
| `TimerRuns.LazyExpiryRefinesTimer` | internal/service/control_service.go:743-859 | after every run with a nondecreasing clock, the stored rows, if cleaned at the present instant, are those of a machine that expires and requeues at every instant and whose calls clean nothing, in all but the completion times; the other tables are equal. Creates that an overdue command blocks are refused by the service and withheld from that machine |
| `TimerRuns.AnswersAreTheTimers` | internal/service/control_service.go:250-433 | every call after such a run is answered as that machine answers it: a pull takes from a queue that the machine's own tables list and returns the same commands, acks get the same verdict, status reads differ exactly on a lapsed lease, creates exactly when an overdue command blocks them or they replay a command due for cleanup |
| `TimerRuns.TimerPullsFromItsOwnQueue` | internal/service/control_service.go:276-293 | every pull in that machine's run takes from a queue that the machine's tables list at that moment |
| `TimerRuns.FullTimerPartsAtFirstBlock` | internal/service/control_service.go:117-163 | a machine with a timer from which no create is withheld stays with the service as long as no create is blocked by an overdue command, and after one more call the two still correspond if and only if that call is not so blocked |
| `TimerCreates.CreateAgrees` | internal/service/control_service.go:126-199 | a create gets the machine's answer if and only if it is not blocked by commands that are all overdue and does not replay a command due for cleanup; blocked, it is refused where the machine makes the command; in every other case the states correspond again |
| `TimerCalls.PullAgrees` | internal/service/control_service.go:271-321 | the queue of a pull is one that the machine's own tables list, the reply equals the machine's, and the states correspond again |
| `TimerCalls.AckAgrees` | internal/service/control_service.go:354-423 | the same for ack's verdict and rows |
| `TimerCalls.StatusAgrees` | internal/service/control_service.go:755-789 | a status read shows what the machine shows if and only if it does not read a visible command whose lease has lapsed before its expiry |
| `Timer.AdvanceKeepsMirror` | internal/service/control_service.go:825-859 | time alone keeps the correspondence: any number of timer turns is absorbed by one later cleanup |
| `TimerLimits.CreateCanDiffer` | internal/service/control_service.go:117-163 | a legal run in which a command lapses between the two transactions of a create: the service refuses the create, the machine with a timer makes the command |
| `TimerLimits.ReplayCanDiffer` | internal/service/control_service.go:132-140 | at the same instant a create with the old key shows the lapsed command as queued, the machine shows it as expired |
| `TimerLimits.AdjacentCreateIsBlockedExactly` | internal/service/control_service.go:117-163 | with nothing between its transactions, a create with a new key and within the rate limit is blocked if and only if a pending command of its target expires after the first clock reading and no later than the second |
| `TimerLimits.AdjacentReplayIsLapsedExactly` | internal/service/control_service.go:117-140 | with nothing between its transactions, a create replays a command due for cleanup if and only if the expiry or the lease of the command that has its key ends between the two clock readings |
| `TimerLimits.PromptCreateAgrees` | internal/service/control_service.go:117-163 | if no time passes and nothing runs between its two transactions, a create differs in neither way |
| `Safety.OneActivePerNode` | internal/auth/motor_command_models.go:7-10 | in every reachable state, creates split and interleaved at will, no two active commands share a node, although the code checks per hub and node |
| `Safety.AuditLogReplaysToRow` | internal/service/control_service.go:630-658 | folding a command's events gives its stored status, reasons, lease start and completion time, and the events are a chained word of the protocol's automaton |
| `Lifecycle.WordIsOneWay` | internal/service/control_service.go:559-576 | in every history a terminal event is last, nothing is queued or leased after sent, sent and executing occur at most once, cancelled never |
| `Lifecycle.WordLength` | internal/service/control_service.go:825-856 | leases minus requeues is 0 or 1, and the last status and the number of leases fix the length of a history up to a tail of at most three |
| `Safety.StatusDeterminesShape` | internal/service/control_service.go:299-306 | status says which optional fields are set: a lease exactly when leased, sent or executing, a completion time exactly when not active; cancelled is unreachable |
| `Leases.LeaseExclusivity` | internal/service/control_service.go:283-314 | over a whole run, a lease of a command ends before the next lease of that command begins |
| `Leases.RequeueingIsBounded` | internal/service/control_service.go:499-527 | no command is leased more than 300000 times and no history has more than 600003 events |
| `Windows.RunsAreLimited` | internal/service/control_service.go:930-946 | every closed 30 seconds of every run hold at most five created commands of a user for a node, although the check uses a clock reading from before the lock |
| `Windows.MotorTimeIsBounded` | internal/service/control_service.go:479-497 | over any k consecutive windows a node gets at most 5k commands from anybody and 25000k ms of motor time |
| `Windows.InsertKeepsLimit` | internal/service/control_service.go:117-188 | inserting at `now` under a check at the earlier captured reading keeps every window within the limit |
| `Safety.CreateIsIdempotent` | internal/service/control_service.go:132-140 | whatever happened since a command was created, a create with its user, node and key writes nothing and returns that command as it stands, and is refused if and only if the request is malformed or names another hub |
| `Safety.OneRowPerNodeAndKey` | internal/auth/motor_command_models.go:15-23 | at most one row ever exists per node and key |
| `Safety.RunKeepsIdentity` | internal/service/control_service.go:166-177 | no call removes a command or changes its user, hub, node, action, duration, key, expiry or creation time |
| `Creating.CreateSucceedsExactly` | internal/service/control_service.go:113-188 | across both its transactions, a create succeeds if and only if the target is the user's and the key is known, or fewer than five recent commands exist and no command holds the target, told from the rows before it; it inserts exactly when it succeeds with a new key |
| `Requests.CreateStoresTheRequest` | internal/service/control_service.go:165-187 | a create that makes a command appends exactly the row whose user, hub, node, key, action, duration and expiry are those asked for (expiry 5 min ahead by default), queued, without reason, lease or completion, shows that row, and appends exactly one event of the user at the captured time; nothing else changes |
| `Requests.CreateAnswersExactly` | internal/service/control_service.go:87-163 | every answer of the committing transaction with its code, in order: malformed, target not the user's, known key, five commands in 30 seconds, unfinished command on the target; every refusal leaves the tables as they were |
| `Requests.PreparedExactly` | internal/service/control_service.go:87-111 | which requests pass the validators, as an if-and-only-if over their fields, and what each field becomes |
| `Requests.CountSinceIsCardinality` | internal/service/control_service.go:930-946 | the rate limiter counts exactly the rows of the user and node created at the window start or later |
| `Requests.StatusAnswersExactly` | internal/service/control_service.go:216-248 | a status read refuses exactly an unknown command or one of a hub that is not the user's; it expires exactly an overdue queued or leased command, with row, event and reply given in full; otherwise it shows the stored row and changes nothing |
| `Requests.PullAndReconcileRefusals` | internal/service/control_service.go:259-266 | a pull is refused exactly for a negative number, a reconcile exactly for a target that is not the user's |
| `Safety.VisibleMeansCreated` | internal/service/control_service.go:948-956 | a user sees a command through its hub if and only if that user created it, and the command's hub is the one its node is bound to |
| `Safety.OwnershipIsPermanent` | internal/service/control_service.go:861-879 | the right to command a node is never lost, so the ownership check before a create decides those inside its transactions |
| `Safety.BindingIsPermanent` | internal/service/garden.go:87-110 | a node bound to a hub stays bound to it in every continuation |
| `Safety.ReadingsOfANodeComeFromOneHub` | internal/service/garden.go:55-83 | two accepted readings of one node came from the same hub |
| `Safety.StatusReadIsOneStep` | internal/service/control_service.go:755-789 | the first look of a status read answers for its own instant, and the second look, after any calls in between, still finds the command |
| `Frontier.OverdueIsCleared` | internal/service/control_service.go:723-741 | at or after its expiry a queued or leased command is expired by any accepted pull or ack of its hub, status read of its owner or reconcile of its target: the row and the one appended event are given field by field, and a status read shows that row |
| `Frontier.LapsedIsRequeued` | internal/service/control_service.go:843-855 | a leased command whose lease has lapsed before its expiry is requeued by any accepted ack of its hub and by a reconcile of its target: the row and the one appended event are given field by field |
| `Frontier.LapsedIsRequeuedByPull` | internal/service/control_service.go:276-314 | an accepted pull of its hub requeues it in the same way, and leaves it so or leases it again at once; both rows and the one or two events are given field by field |
| `Frontier.ProgressFrontier` | internal/service/control_service.go:743-753 | once a command is overdue, such a call leaves it terminal if and only if it was not sent or executing |
| `Frontier.SentPastExpiryIsStuck` | internal/service/control_service.go:386-397 | a sent or executing command past its expiry keeps its row in every continuation |
| `Frontier.StuckCommandBlocksNode` | internal/service/control_service.go:145-163 | and every later create for its node with a new key, by anybody through any hub, is refused |
| `Queue.PullIsFifo` | internal/service/control_service.go:276-314 | after the cleanup a pull leases exactly the oldest min(max, n) of the n queued commands and returns them in order; each leased row and its one event are given field by field, with the lease asked for or 15 s; its expiry test never skips a command, no older queued one is left behind, every other row and history is as the cleanup left it |
| `Replies.QueueIsWhatWasAvailable` | internal/service/control_service.go:276-293 | the queue of a pull consists of exactly the hub's commands that were queued or under a lapsed lease and not overdue before the call |
| `Effects.CleanupLeaves` | internal/service/control_service.go:825-859 | the cleanup for a hub or a target expires, requeues or leaves each row as its own fields say; the expired and requeued rows and their one event are given field by field, every other row and history stays |
| `Effects.ExecAllowed` | internal/service/control_service.go:126-423 | every write that any transaction commits meets the guard of its kind in the state it is made in |
| `Reconciling.CleanupIsIdempotent` | internal/service/control_service.go:791-813 | a second cleanup of a hub or of a target at the same instant writes nothing |
| `Reconciling.EarlierCleanupIsAbsorbed` | internal/service/control_service.go:825-859 | cleanups of a hub or of a target at t1 and then t2 leave the rows that one at t2 leaves, but for completion times |
| `Reconciling.HubCleanupIsASweep` | internal/service/control_service.go:791-813 | the hub-wide cleanup leaves the rows, and the histories but for the actor, that cleaning the hub's targets one by one leaves, in any order and with repetitions |
| `Replies.AckAcceptedExactly` | internal/service/control_service.go:328-416 | every answer of an ack with its code, in order: improper fields, unknown command, wrong hub or node, a step or time that the row stored before the call does not allow (the allowed steps are listed); otherwise it shows the one stored row |
| `Replies.AckRecordsTheReport` | internal/service/control_service.go:403-419 | an ack that brings a new status leaves the row with status, reason and trimmed message as reported, completed without lease when terminal and otherwise unchanged, and appends one event of the hub given field by field |
| `Queue.AckCanBeRepeated` | internal/service/control_service.go:374-386 | an ack of the status that a command has is accepted after lease lapse and expiry too, and leaves row and history alone |
| `Queue.LeaseCheckOnlyForExecuting` | internal/service/control_service.go:408-415 | once past the other checks, an ack is refused for its lease exactly when it goes from sent to executing after the lease; the nil test never decides |
| `Commuting.DifferentHubsCommute` | internal/service/control_service.go:271-314 | a pull or ack of one hub and one of another give in either order the same replies, rows and histories |
| `Replies.ChangesAreConfined` | internal/service/control_service.go:367-372 | no call changes the row or the history of a command of another user or hub |
| `Replies.RepliesShowWhatIsStored` | internal/service/control_service.go:310-321 | every command that a reply shows is stored just so after the call, and belongs to the caller |
| `Provisioning.ClaimsAlternateWithRevocations` | internal/auth/service.go:275-335 | two successful claims of one device name the same hub and have a revocation by its owner between them |
| `Provisioning.TokenMeansClaimStands` | internal/auth/service.go:300-311 | a hub has a token row if and only if it was claimed and not revoked since |
| `Provisioning.ListShowsStandingClaims` | internal/auth/service.go:339-380 | the list shows exactly the user's hubs with their id, owner, name, device and creation time, as claimed exactly those whose claim is newer than their last revocation, with the time of that claim, and none as revoked |
| `Provisioning.DeviceIsPermanent` | internal/auth/service.go:255-268 | a device names one hub with one owner for ever, and associating it again is refused |
| `Provisioning.CallOnToken` | internal/auth/service.go:394-409 | only a claim gives a hub its token, only when it has none, and only its owner's revocation takes it away |
| `HubRequests.ClaimAnswersExactly` | internal/auth/service.go:275-335 | a claim hands out a hub's token if and only if device and secret are those of the hub and it has no token row; it then appends one row given field by field; each refusal has its error |
| `HubRequests.AssociateAnswersExactly` | internal/auth/service.go:234-269 | an association appends one hub given field by field and answers its id, unless an argument is empty or the device is taken |
| `HubRequests.RevokeAnswersExactly` | internal/auth/service.go:386-412 | the owner's revocation is always accepted and removes exactly the hub's token rows; any other is refused |
| `HubRequests.ReadingAnswersExactly` | internal/service/garden.go:55-83 | a reading is refused exactly without a node or for a node of another hub; otherwise the node is bound to the hub and the reading stored with its node and time |
| `Invariants.ReachableInv` | internal/auth/motor_command_models.go:5-45 | all table invariants hold in every reachable state, one token row per hub among them |
| `Runs.RunIsItsLog` | internal/service/control_service.go:126-433 | a run of interleaved transactions is the log of its writes, each of which met its guard |
| `Runs.PerformedExtendsRun` | internal/service/control_service.go:70-76 | whatever calls the services perform, the database is at the end of a legal run |
| `Control.ControlService.CreateMotorCommand` | internal/service/control_service.go:78-214 | a create performs its two transactions in turn or is refused with the tables unchanged |
| `Control.ControlService.CommitMotorCommand` | internal/service/control_service.go:126-188 | the commit transaction gives the reply and writes of its transaction function |
| `Control.ControlService.ReconcilePendingCommandsForTarget` | internal/service/control_service.go:803-823 | the reconcile transaction is one legal call |
| `Control.ControlService.GetMotorCommandStatus` | internal/service/control_service.go:216-248 | a status read is one legal call, or refused with the tables unchanged |
| `Control.ControlService.ExpireVisibleCommandOnAccess` | internal/service/control_service.go:755-789 | given any stale copy, it answers with the copy unless that is overdue, and otherwise acts on the stored row |
| `Control.ControlService.PullPendingMotorCommands` | internal/service/control_service.go:250-326 | a pull is one legal call, or refused with the tables unchanged |
| `Control.ControlService.LeaseQueuedCommands` | internal/service/control_service.go:283-314 | the lease loop with its break and its skip saves and returns what the transaction function says |
| `Control.ControlService.AckMotorCommandEvent` | internal/service/control_service.go:328-433 | an ack is one legal call; when it is refused after its cleanup has begun, the tables are rolled back |
| `Control.ControlService.AckRow` | internal/service/control_service.go:367-422 | the checks and field updates in their order amount to the verdict on the row |
| `Control.ControlService.ReconcilePendingMotorCommands` | internal/service/control_service.go:825-859 | the loop over fetched copies leaves the tables that the cleanup's writes give |
| `Control.ControlService.ExpireMotorCommand` | internal/service/control_service.go:723-741 | overwriting the fields one by one and saving is the expiry move with its event |
| `Control.ControlService.SaveMotorCommandWithEvent` | internal/service/control_service.go:707-721 | the row is overwritten and one event appended, nothing else |
| `Control.FullTakeIsDone` | internal/service/control_service.go:288-290 | leaving the lease loop when it is full gives what going on would give |
| `Hubs.AuthService.AssociateHub` | internal/auth/service.go:234-269 | an association is one legal call, or refused with the tables unchanged |
| `Hubs.AuthService.ClaimHubToken` | internal/auth/service.go:275-336 | a claim is one legal call |
| `Hubs.AuthService.RevokeHub` | internal/auth/service.go:386-412 | a revocation is one legal call, or refused with the tables unchanged |
| `Hubs.AuthService.ListHubs` | internal/auth/service.go:339-382 | the filled slice holds the details of exactly the listed hubs, newest first |
| `Hubs.GardenService.InsertSensorData` | internal/service/garden.go:33-83 | inserting a reading is one legal call, or refused with the tables unchanged |
| `Hubs.GardenService.BindNodeToHub` | internal/service/garden.go:87-110 | binding gives the reply and writes of its transaction function |
| `Callers.RequireAuthenticatedUser` | internal/service/control_service.go:435-451 | exactly a token with a user name and a well-formed user id is accepted, as that user; hubs are denied permission, everybody else counts as unauthenticated |
| `Callers.RequireHubServiceAccount` | internal/service/control_service.go:453-469 | exactly a token without user name and with a well-formed hub id is accepted, as that hub; everybody else is denied permission |
| `Validation.ValidateMotorAction` | internal/service/control_service.go:479-497 | exactly the known actions with a duration from 0 to 5000 ms that is 0 exactly for stop are accepted |
| `Validation.ValidateMotorExpiry` | internal/service/control_service.go:499-517 | a given expiry is accepted, as given, if and only if it lies from 5 s to 5 min ahead; without one it is 5 min ahead |
| `Validation.ValidateLeaseDuration` | internal/service/control_service.go:519-527 | exactly the negative durations are refused; 0 stands for 15 s, any other lease lasts the milliseconds asked for, at least one |
| `Validation.ValidatePullMax` | internal/service/control_service.go:529-540 | exactly the negative numbers are refused; 0 stands for 1, more than 10 for 10, any other for itself |
| `Validation.TrimCutsBlanks` | internal/service/control_service.go:87-97 | trimming cuts off exactly the white space at both ends, and leaves nothing exactly of a blank string |

## Left out

- Chat, context text and the Mistral client (internal/service/chat.go): network calls and string formatting.
- JWT signing and expiry, RSA keys, bcrypt: a caller is what a valid token says it is.
- Registering, logging in, changing mail address or password, error-code mapping of auth_service_v2.go, CORS and start-up: thin wrappers.
- GetSummary, GetLast, ListProbesForHubName: the work is done by SQL and TimescaleDB aggregates that the repository does not contain.
- Conversions to and from protobuf enums, log lines, identifier formatting: finite tables. An unsupported action or reason is `None`; an unsupported ack status is one that `AckStatus` refuses.
- Sensor values of a reading: only node and time are kept.
- Row fields that no rule reads (UpdatedAt, TerminalResultCode, TerminalResultMessage, names and locations of nodes and hubs beyond those shown) are not modelled.
- The recovery from a unique-key violation at internal/service/control_service.go:189-199: with the commit transaction atomic it is not reached.
- Database failures other than the refusals above: they become internal errors with the transaction rolled back, or, between binding a node and storing its reading, leave the binding.
- Validation.Trim: covers the white space of Latin-1, not all of Unicode's.
- Validation.ValidateMotorExpiry: does not model the 64-bit range of milliseconds and durations, which values accepted here never leave.
- Hubs.AuthService.RevokeHub: takes the hub id as a number; an id that is not one is treated differently by PostgreSQL and SQLite and is not modelled.
