# Verification of the status dashboard's persistence layer and delivery

Dafny models of the parts of the status dashboard backend that carry its state: the
generated persistence layer (hooks, single and bulk creation, mutations, update specs, eager
loading, transactions), the delivery of outbox rows by concurrent workers, and the shutdown of
the process.

`dafny verify dfyconfig.toml` checks everything.

| file | about |
|---|---|
| `Middleware.dfy` | hooks as programs around a next handler; what a chain of them can and cannot do |
| `HookPackage.dfy` | conditional hooks, `Reject`, immutable chains |
| `Create.dfy`, `BulkCreate.dfy` | the steps of a create builder, and the nested chain of a bulk save |
| `Save.dfy`, `SaveLaws.dfy`, `SingleVsBulk.dfy` | the two `Save` operations, their laws, and how they compare |
| `BulkHooks.dfy` | the hooks of every builder of a bulk run, and each can refuse |
| `Outbox.dfy`, `Notification.dfy` | required columns of outbox rows, and their create/read round trip |
| `Mutations.dfy`, `Relation.dfy` | what a mutation records and means, and what an update writes to the incident-component relation |
| `Scan.dfy`, `Entities.dfy` | columns, holders, assignment, the column shift, create/read round trip |
| `EagerLoad.dfy`, `EagerLoadLaws.dfy`, `ComponentLoad.dfy`, `FkLoad.dfy` | eager loading over the relation and over foreign keys |
| `Transactions.dfy` | the transactional client over whole runs |
| `OldValue.dfy` | old values of an update |
| `Delivery.dfy`, `DeliveryTimes.dfy` | claiming, sending, recording and recovering outbox rows; when and how often they are attempted |
| `Shutdown.dfy` | scheduler, worker and main during shutdown |

## How things are modelled

- A hook body is an arbitrary program that sees its argument, the state and every answer of
  the next handler so far, and picks its next action: change the state, call next, or return.
  It stops within a number of actions that does not depend on its input. The laws say which
  families of hooks they are about: how often next is called, whether its answer and its
  argument are passed on, how the result depends on that answer, and what a hook changes by
  itself before and after it has an answer. They speak only of histories that
  the hook itself leads to, and concrete hooks with bodies are shown to obey them
  (`PassOnIsLawful`, `StampingHookIsLawful`, `StampingHookIsOne`, `StatementHookIsLawful`).
- Mutations and nodes of a save are objects, held by reference in the state, so that a
  mutation's id can point into a node. Builders of one bulk are distinct objects.
- The database is a parameter with a stated contract. An insert gives one id per spec, keeps
  ids that are set and assigns ids that are not zero. Whether a batch insert also reads back
  the ids the caller gave, and so turns an int into an int64, is a parameter (`readsBack`),
  because the library that does it is not part of this model. An update applies clear specs
  before add specs, a clear spec without target nodes deletes all rows of the entity, and adding an
  existing row changes nothing. A joined row is scanned into the holders asked for, and its
  join key is one of the ids asked for. In the
  delivery each statement is atomic; claiming and recovering lock their rows first and so are one
  step each, while recording a temporary failure is a read and an update.
- Clocks are part of the state. For the delivery all workers share one clock, a send ends
  within the SMTP timeout of the claim and recording it within the update timeout of the end of
  the send; rendering and claiming take no time. A send whose timeout is not positive fails at
  once. Only sends that the worker saw succeed count as delivered: a message that the server took
  but reported as an error does not. A worker claims one row at a time, as the
  batch size of the source says. For the shutdown a prompt main does not sleep through a
  deadline it waits for, and an eager one does not let time pass when what it waits for has
  happened.

## Findings

Places where the code does less than its name or its documentation suggests, with the
condition under which it does what one expects:

- Settings validation accepts every lease longer than the SMTP timeout. A row can then be
  delivered twice with nothing lost, because recording the outcome has five more seconds.
  Exactly the leases of at least SMTP timeout plus update timeout are safe, apart from settings
  that leave no time to send (`LeaseExactly`).
- With a shorter lease a row can also be attempted more often than the maximum: MarkFailed reads
  the attempts and updates the row in two statements, and a row that was claimed again in between
  is put back. Exactly the same leases bound the attempts (`AttemptsExactly`).
- The context that bounds the draining of requests is created before the waits for scheduler
  and worker, which may take sixty seconds. If main loses no time itself, requests get time to
  drain exactly when the last
  task and the worker have ended less than fifteen seconds after shutdown began, and never
  after a timeout (`DrainBudgetExactly`, `TimeoutLeavesNothing`, `DrainCanBeStarved`). The
  comment at cmd/main.go:102-103 says otherwise.
- A bulk save checks the builder's mutation before it takes the one a hook passed on, so fields
  that fail the check can be stored; a single save checks the right one
  (`RedirectEscapesBulkCheck`). For builder i of any number, the stored row is that of the
  mutation passed on while the check was passed by the builder's own (`StoredRowIsThePassedOne`,
  and `RedirectExactly` for a hook that redirects). Hooks that pass their own mutation on are
  safe (`BulkStoresChecked`).
- If batch inserts do not read ids back, an id of zero makes a bulk save panic after the insert,
  while a single save accepts it. The innermost steps differ exactly when the id is zero, the
  fields are valid and the database takes the row (`BasesAgreeExactly`). Under any hooks that pass
  their own mutation on, the two saves differ exactly when such an id was stored
  (`SavesAgreeExactly`). Under hooks that report success exactly for success and do not edit
  nodes, a bulk of any size panics exactly then (`BulkAnswerTells`).
- A hook that calls SetID after next leaves the mutation with that id and the node with the row's
  (`LateStampBreaksIds`): the two agree exactly when the hook set the id the row got. Hooks that
  set ids only on the way in are safe (`BulkIds`).
- The node returned for a new outbox row lacks the times the database fills in. It equals the stored
  row exactly when the caller set `created_at` and `updated_at` (`NodeIsTheRowExactly`).
- `ClearComponents` forgets its place among the calls. The stored set is the literal one exactly
  when nothing added before the last clear goes unmentioned after it (`StoredIsLiteralExactly`).
- Inside a transaction a builder's rollback is a no-op, so a committed transaction equals the
  plain driver exactly when no rolled-back block had run a statement
  (`TransactionIsDirectExactly`).
- Eager loading orders a parent's neighbours by the whole stream, not by the parent's own rows
  (`OrderIsThatOfTheStream`). The orders agree exactly when any two neighbours of the parent come
  in the same order by their first rows in the stream and by their first rows with the parent
  (`OrdersAgreeExactly`).
- A query interceptor that runs an eager loading query again gets only the neighbours that the
  first run did not have. It gets all neighbours of the second run exactly when the first had none
  of them (`RetryIsCompleteExactly`), and nothing exactly when the first had all, as in a plain
  retry (`RetryFindsNothing`).

## Model

| member | source | states |
|---|---|---|
| Middleware.FoldConcat | ent/hook/hook.go:224-247 | folding hooks around a mutator is a monoid homomorphism: the chain of two lists is the first list's chain around the second's |
| Middleware.FoldAround | ent/ent.go:507-522 | hooks that call next at most once reach the base handler at most once, with only their own effects before and after it, and the chain's result depends on its answer as the law of the hooks says: passed on, success only for success, success for success |
| Middleware.FoldEnds | ent/ent.go:507-522 | if the base handler returns with an invariant or panics in a bad state, so does the whole chain, however often hooks call next |
| Middleware.FoldKeeps | ent/ent.go:507-522 | what every hook effect and the base handler keep, the whole chain keeps, however often hooks call next |
| Middleware.FoldReaches | ent/ent.go:507-522 | what the base handler reaches, and hooks then leave alone, is reached by every chain of hooks that call next, once or more often |
| Middleware.FoldSwap | ent/ent.go:507-522 | base handlers that agree under an invariant are interchangeable under any hooks that keep it |
| Middleware.FoldSwapOrCut | ent/ent.go:507-522 | base handlers that agree, except that the second may panic instead, make chains that agree, except that the second may panic instead |
| Middleware.PassOnIsLawful | ent/tx.go:45-59 | a hook with an effect before next, an effect after it and the answer returned obeys every law that allows its two effects |
| Middleware.FoldPassesThrough | ent/ent.go:516-522 | a list of hooks that act around next runs as written: first effects in order, the base handler, last effects in reverse, each once |
| Middleware.Nest | ent/ent.go:516-521 | the wrapping loop gives the folded chain, or gives up before anything runs exactly when a hook is nil |
| HookPackage.OnOrUnless | ent/hook/hook.go:167-190 | for every mutation exactly one of On and Unless runs the hook, and the other goes straight to next |
| HookPackage.MaskDecides | ent/hook/hook.go:167-211 | for a mutation of one operation: On runs the hook exactly if the mask has it, Unless exactly if not, Reject refuses exactly if it has |
| HookPackage.RejectIsABarrier | ent/hook/hook.go:192-211 | whatever the outer hooks do, what is behind a Reject runs only for mutations that do not match when they arrive; a matching one is refused with the state unchanged |
| HookPackage.RejectedExecIsNeverReached | ent/hook/hook.go:201-211 | if outer hooks keep every mutation matching, the outcome is the same for any inner hooks and any exec |
| HookPackage.ChainIsItsHooks | ent/hook/hook.go:224-232 | a chain used as one hook equals its hooks in order |
| HookPackage.Chain.constructor | ent/hook/hook.go:219-222 | a new chain holds a copy of the slice in an array of its own |
| HookPackage.Chain.Append | ent/hook/hook.go:234-241 | a new chain with both lists in order, sharing no array with this chain or the argument |
| HookPackage.Chain.Extend | ent/hook/hook.go:243-247 | the same for two chains |
| HookPackage.Chain.Hook | ent/hook/hook.go:224-232 | the loop gives the fold of the chain's hooks |
| HookPackage.AppendLeavesChainAlone | ent/hook/hook.go:213-241 | a chain means the same after later appends, even when the new chain's array and the caller's slice are overwritten |
| Save.RunDefaults | ent/incident_create.go:1063-1069 | fresh slices, and every builder's defaults applied in builder order before any mutator runs |
| Save.DefaultedKeeps | ent/notificationoutbox_create.go:203-212 | defaults change nothing but fields, and only those of the builders' mutations |
| Save.DefaultedOnce | ent/incident_create.go:1063-1066 | a mutation of one builder gets its defaults exactly once |
| Save.EveryBuilderGetsDefaults | ent/incident_create.go:1066-1069 | before the first mutator runs, the mutation of every builder has its defaults, and all other mutations are as they were |
| Save.BulkSave | ent/notificationoutbox_create.go:936-993 | a recorded error comes back with nothing done; otherwise the run of the nested mutators, nodes on success, the error or the panic otherwise; what that run does is said by the BulkHooks, BulkCreate and SaveLaws rows |
| Save.WithHooks | ent/ent.go:499-531 | a nil hook is an error before anything runs; otherwise the folded chain around overwriting the mutation and saving, with a value that is not a node refused |
| Save.SaveWithoutHooks | ent/ent.go:504-506 | without hooks the chain is the save itself |
| BulkCreate.InsertNested | ent/notificationoutbox_create.go:960-969 | the last builder's insert stores one row per spec or nothing, and its answer says which |
| BulkCreate.MutateNested | ent/notificationoutbox_create.go:947-984 | hooks calling next at most once: every run of builder i's mutator climbs through the builders from i on, follows check, spec, next builder, insert, and unwinds in reverse |
| BulkCreate.MutateSaves | ent/notificationoutbox_create.go:947-984 | hooks calling next at most once and reporting success only for its success: on success every builder from i on has row, node and done flag, the id pointer if no id is set after an answer, and the row in the node if hooks do not edit nodes |
| BulkCreate.MutateTells | ent/notificationoutbox_create.go:947-984 | hooks that report success exactly for success: builder i's answer tells whether rows were stored, and it panics exactly for a stored id of zero that stays an int |
| BulkHooks.EveryHookRunsInPlace | ent/notificationoutbox_create.go:944-992 | any number of builders with any lists of logging hooks: the trace of a successful bulk is exactly the lines of every hook of every builder, with its check and spec, one insert of the builders' specs, and the unwinding in reverse |
| BulkHooks.UpOfOneEach | ent/notificationoutbox_create.go:952-959 | with one hook per builder, on the way in: hook, check, spec of builder 0, then of builder 1, and so on |
| BulkHooks.DownOfOneEach | ent/notificationoutbox_create.go:981-984 | on the way out: the hooks of the last builder down to the first |
| BulkHooks.AnyBuilderCanRefuse | ent/notificationoutbox_create.go:981-990 | a refusing hook of any builder fails the bulk with nothing stored, whatever later builders' hooks are; if the other hooks only log, the error is the first failing check of an earlier builder, else the hook's |
| BulkHooks.ValidFieldsReachTheHook | ent/notificationoutbox_create.go:952-954 | if the earlier builders' fields are valid, it is the hook's error |
| BulkHooks.LoggingHookPasses | ent/ent.go:507-515 | hooks that log around next are among those that may surround a refusal |
| BulkCreate.HandOverKeeps | ent/notificationoutbox_create.go:955-957 | taking the passed mutation and building the spec logs check and spec, keeps the other builders and leaves a spec for every builder up to i |
| BulkCreate.CloseWrites | ent/notificationoutbox_create.go:970-979 | writing back touches one node and one mutation: the node gets the stored row's id, the mutation points at it and is done |
| SaveLaws.InsertIsLast | ent/notificationoutbox_create.go:952-969 | an insert is the last builder event of a run, and all checks and specs, in builder order, come before it |
| SaveLaws.BulkAllOrNothing | ent/notificationoutbox_create.go:940-993 | for any builders whose hooks call next at most once: events climb in builder order and unwind in reverse, and all rows are stored or none |
| SaveLaws.BulkSaves | ent/notificationoutbox_create.go:970-992 | after success: one new node and row per builder in input order, each mutation done; with the id of the outermost builder sharing it, and the row in the node, as far as hooks leave ids and nodes alone |
| SaveLaws.BulkIds | ent/incident_create.go:1093-1115 | with distinct mutations that hooks pass on, each mutation's id is its own node's id, although the pointer is taken first, hooks may have set another id on the way in, and hooks may edit nodes |
| SaveLaws.BulkAnswerTells | ent/incident_create.go:1108-1116 | under hooks that report success exactly for success: an error means no row was stored, success that all were, and a bulk of any size panics exactly when ids are not read back and a row with id zero was stored |
| SaveLaws.StampingHookIsLawful | ent/mutation.go:1391-1395 | a hook that sets an id, calls next, logs and returns the answer is among the hooks of these results |
| SaveLaws.LateStampBreaksIds | ent/incident_create.go:1095-1101 | a hook that sets the id after next: the node has the row's id, the caller's where one was given, and the mutation the hook's; they agree exactly when these are equal |
| SaveLaws.StoredRowIsThePassedOne | ent/incident_create.go:1075-1080 | row i of a batch has the fields of the mutation that builder i's hooks passed on, and it was the builder's own mutation that passed the check |
| SaveLaws.BulkStoresChecked | ent/notificationoutbox_create.go:947-957 | with hooks that pass their own mutation on, any number of times, only fields that passed the check are stored |
| SaveLaws.BulkKeepsMutations | ent/notificationoutbox_create.go:955-959 | with such hooks no builder changes its mutation |
| SaveLaws.SingleStoresChecked | ent/ent.go:507-515 | a single save stores only checked fields, whatever mutation hooks pass on |
| SaveLaws.SingleRowIsThePassedOne | ent/ent.go:507-515 | a single save checks and stores the mutation that was passed on |
| SingleVsBulk.BaseAgrees | ent/incident_create.go:305-323 | the innermost steps of a single save and of a bulk of one do the same, unless the id is zero and stays an int |
| SingleVsBulk.OneBuilderBulkIsSingle | ent/incident_create.go:1059-1116 | under hooks that pass their mutation on and do not leave its id at zero, a bulk of one has the state, rows, trace and answer of the single save, and neither panics |
| SingleVsBulk.BulkOfOneIsSave | ent/incident_create.go:233-236 | from the defaults on, Save and a bulk of one end in the same state with the same error, or both succeed, or Save refuses a value that is not a node |
| SingleVsBulk.PassedOnNodeIsTheSame | ent/ent.go:523-530 | if the hooks also return the answer of next, Save and the bulk of one succeed together, and the node Save returns is the one the bulk returns |
| SingleVsBulk.StampingHookIsOne | ent/mutation.go:1391-1395 | a hook that sets a nonzero id and passes the answer on is among the hooks of these results |
| SingleVsBulk.ZeroIdTellsThemApart | ent/incident_create.go:1096-1100 | with an id of zero that stays an int the single save succeeds and the bulk panics after storing the row |
| SingleVsBulk.BasesAgreeExactly | ent/incident_create.go:305-323 | the innermost steps differ exactly when ids are not read back, the id is zero, the fields pass the check and the database takes the row |
| SingleVsBulk.SavesAgreeExactly | ent/incident_create.go:1059-1116 | under any hooks that pass their own mutation on: the single save never panics, and the bulk of one equals it exactly when ids are read back or no id of zero was stored; otherwise it panics |
| SingleVsBulk.RedirectEscapesBulkCheck | ent/incident_create.go:1075-1080 | a hook passing another mutation makes the bulk store fields that fail the check, and the single save refuse them |
| SingleVsBulk.RedirectExactly | ent/incident_create.go:1075-1080 | with such a hook unchecked fields are stored exactly when the builder's own pass, the other's fail, and the database takes the row |
| Outbox.CheckAcceptsExactly | ent/notificationoutbox_create.go:215-264 | the check accepts exactly the fields that fill every NOT NULL column the database cannot fill, without empty text, with status and attempts; which field fills which column is fixed by the round trip below |
| Outbox.CheckNamesFirstUnfilled | ent/notificationoutbox_create.go:215-264 | the error names the first required column, in the builder's order, that is not filled |
| Outbox.DefaultsNeverOverwrite | ent/notificationoutbox_create.go:203-212 | defaults keep every given value and change only an unset status or attempts |
| Outbox.DefaultsAreTheTables | ent/migrate/schema.go:145-146 | the builder's defaults are those of the table |
| Outbox.BulkStoresCompleteRows | ent/migrate/schema.go:139-155 | no outbox row from a bulk save reaches the store without a value the table demands |
| Outbox.SingleStoresCompleteRows | ent/migrate/schema.go:139-155 | nor from a single save, whatever its hooks pass on |
| Notification.NotificationLensIsLawful | ent/notificationoutbox.go:98-203 | assigning a cell changes its own field and no other, and NULL leaves it alone |
| Notification.NotificationCodecIsStrict | ent/notificationoutbox.go:77-203 | assignment fails exactly at a cell of the wrong type |
| Notification.CreateReadRoundTrip | ent/notificationoutbox_create.go:286-366 | for all fields that pass the check, the row read back in any order of columns is the created node with the row's id, and the time of the insert where the caller set none |
| Notification.NodeIsTheRowExactly | ent/notificationoutbox_create.go:341-348 | the returned node is the stored row exactly when the caller set both times |
| Notification.PlainQueryReadsNotification | ent/notificationoutbox.go:98-203 | a query without selected fields reads the whole notification |
| Mutations.IncidentMutation.AddComponentIDs | ent/mutation.go:2074-2081 | adds the ids to the recorded set and touches nothing else |
| Mutations.IncidentMutation.RemoveComponentIDs | ent/mutation.go:2094-2102 | moves the ids from added to removed |
| Mutations.IncidentMutation.ClearComponents | ent/mutation.go:2084-2086 | sets the cleared flag and leaves the recorded sets |
| Mutations.IncidentMutation.ResetComponents | ent/mutation.go:2121-2125 | forgets all edge edits |
| Mutations.IncidentMutation.SetImpact | ent/mutation.go:1596-1599 | records the value and drops a delta |
| Mutations.IncidentMutation.AddImpact | ent/mutation.go:1628-1634 | accumulates the delta with 64-bit wrap-around |
| Mutations.IncidentMutation.ResetImpact | ent/mutation.go:1646-1649 | forgets value and delta |
| Mutations.IncidentMutation.SetDescription | ent/mutation.go:1462-1464 | records the value and leaves the cleared flag |
| Mutations.IncidentMutation.ClearDescription | ent/mutation.go:1493-1496 | drops the value and sets the cleared flag |
| Mutations.IncidentMutation.ResetDescription | ent/mutation.go:1505-1508 | forgets both |
| Mutations.RecordedEdgesMeanCallsInOrder | ent/mutation.go:2074-2125 | after any calls the recorded sets mean the adds and removes since the last reset in order, from the empty set if cleared since then |
| Mutations.ClearForgetsOrder | ent/mutation.go:2083-2086 | the stored set is the literal one plus the ids added before the last clear and not named since, and the two are disjoint |
| Mutations.StoredIsLiteralExactly | ent/mutation.go:2083-2086 | stored and literal set agree exactly when there is no such id |
| Mutations.AddThenClearKeeps | ent/mutation.go:2074-2086 | adding an id and clearing stores the id |
| Mutations.RecordedNumberMeansCallsInOrder | ent/mutation.go:1596-1649 | set value and delta mean the calls since the last reset in order, with wrap-around; both are recorded exactly when an add follows a set |
| Mutations.WrapIsTwosComplement | ent/mutation.go:1628-1634 | deltas are kept as the one 64-bit integer equal modulo two to the 64th |
| Mutations.RecordedNullableMeansCallsInOrder | ent/mutation.go:1462-1508 | value and cleared flag are both set exactly when a set follows a clear; otherwise they mean the calls in order |
| Relation.Keys | ent/mutation.go:2104-2118 | the recorded ids in any order, each once |
| Relation.EdgeSpecs | ent/incident_update.go:1095-1139 | the clear and add specs, applied to any relation and any id, write exactly the edit the mutation means; an empty removal never becomes a clear-all |
| Relation.UpdateMeansCallsInOrder | ent/incident_update.go:1095-1139 | after any calls, the entity's related set is that of the calls in order, and every other entity keeps its own |
| Relation.UpdatesEditEachMatch | ent/incident_update.go:494-538 | an update of many edits each matched entity as a single update would, and no other |
| Relation.BothSidesWriteTheSame | ent/component_update.go:660-704 | editing an incident's components equals editing each touched component's incidents, in any order |
| Scan.ScanValues | ent/component.go:64-79 | one holder per column, of the column's type |
| Scan.Entity.AssignValues | ent/component.go:83-124 | too few values or a type mismatch is an error; otherwise every column is assigned in order |
| Scan.QuerySpecColumns | ent/component_query.go:559-567 | the loop gives the columns that the next rows characterise |
| Scan.SelectedFieldsAreRead | ent/component_query.go:559-567 | the id first, then every selected field other than the id, as often as selected; all columns without a selection |
| Scan.WithoutConcat | ent/component_query.go:562-566 | the selected fields keep their order and repeats |
| Scan.MismatchIsAnError | ent/component.go:83-124 | assignment fails exactly when some column has a cell of the wrong type |
| Scan.ShiftIsSound | ent/incident_query.go:473-495 | for every field list and row: two leading integers, the neighbour's assignment sees exactly its own columns and cannot fail, and the second value is the neighbour's id |
| Scan.AssignedKeepsId | ent/component.go:88-94 | only the leading id column sets the id |
| Scan.ReadsRow | ent/incident.go:105-209 | reading a row in any column order, repeats included, gives each read field its stored value and leaves the others new |
| Entities.ComponentCodecIsLawful | ent/component.go:64-124 | scan types and assignment of a component fit together, and only a wrong type fails |
| Entities.ComponentLensIsLawful | ent/component.go:83-124 | assigning a cell changes its own field of a component and no other, and NULL leaves it alone |
| ComponentLoad.LoadedComponentHasItsFields | ent/incident_query.go:473-495 | for every selection of fields, the component decoded from its joined row has its id and every selected field, zero values elsewhere, and belongs to the incident of the row |
| Entities.IncidentCodecIsLawful | ent/incident.go:84-209 | the same for an incident |
| Entities.IncidentCodecIsStrict | ent/incident.go:84-209 | assignment fails exactly at a cell of the wrong type |
| Entities.IncidentLensIsLawful | ent/incident.go:105-209 | assigning a cell changes its own field and no other, and NULL leaves it alone |
| Entities.CreateReadRoundTrip | ent/incident_create.go:325-390 | for every mutation the node built on creation, with the row's id, is the entity read back, for every order of the columns |
| Entities.PlainQueryReadsIncident | ent/incident.go:105-209 | a query without selected fields reads the whole incident |
| EagerLoad.IndexParents | ent/incident_query.go:451-460 | every parent starts without edges and is indexed by id, the last one of equal ids winning |
| EagerLoad.ScanRow | ent/incident_query.go:484-493 | one row: a neighbour that no row had before, in this run of the query or an earlier one, becomes a node; a known one only gains a parent |
| EagerLoad.ScanRows | ent/incident_query.go:473-495 | after a run of the query: each new neighbour once in order of first appearance, all indexed by exactly the parents their rows name |
| EagerLoad.Query | ent/incident_query.go:471-497 | over all runs of the query by its interceptors: the index of all rows, and what each run answers |
| EagerLoad.AssignToAll | ent/incident_query.go:505-507 | in any map order, each parent of the set gains the neighbour once |
| EagerLoad.Distribute | ent/incident_query.go:500-508 | an error exactly when a neighbour is unknown; otherwise each parent has the neighbours that name it, in order |
| EagerLoad.LoadManyToMany | ent/incident_query.go:450-510 | for every parent list, map order and interceptor, however often it runs the query and whatever rows each run returns: the error condition, and each parent's edges as the related ones of the returned neighbours |
| EagerLoadLaws.LoadedOnceEach | ent/incident_query.go:484-509 | each related neighbour is loaded exactly once, and nothing else |
| EagerLoadLaws.UnchangedNeighboursAreKnown | ent/incident_query.go:500-504 | without interceptors the unexpected-node error cannot occur |
| EagerLoadLaws.OneRunAnswersAll | ent/incident_query.go:484-495 | a query run once answers with every neighbour of the stream |
| EagerLoadLaws.RetryFindsNothing | ent/incident_query.go:453-495 | a second run answers with nothing exactly when it returns only neighbours the first had |
| EagerLoadLaws.RetryIsCompleteExactly | ent/incident_query.go:453-495 | a second run answers with all its neighbours exactly when the first had none of them |
| EagerLoadLaws.LoadedAreTheNaiveOnes | ent/incident_query.go:461-509 | a parent gets the neighbours a query for it alone would return |
| EagerLoadLaws.OrderIsThatOfTheStream | ent/incident_query.go:484-509 | a stream on which the two orders differ |
| EagerLoadLaws.OrdersAgreeExactly | ent/incident_query.go:484-509 | the loaded order is that of the parent's own rows exactly when first rows in the stream and first rows with the parent order any two of its neighbours alike |
| EagerLoadLaws.GroupedKeepsNaiveOrder | ent/incident_query.go:484-509 | in a stream grouped by neighbour the orders agree for every parent |
| EagerLoadLaws.LoadedFromBothSides | ent/component_query.go:491-538 | a component is loaded under an incident exactly when the incident is loaded under the component |
| FkLoad.LoadOneToMany | ent/incident_query.go:511-540 | an unknown key is an error; otherwise each parent has the neighbours with its id, in order |
| FkLoad.EdgesPartitionNeighbours | ent/incident_query.go:531-538 | the parents' edges together are the neighbours, none lost or doubled |
| FkLoad.WithKeyConcat | ent/incident_query.go:531-538 | a parent's edges keep the order of the neighbours |
| FkLoad.GroupByKey | ent/notificationoutbox_query.go:404-414 | every key once, every child filed under its key |
| FkLoad.LoadManyToOne | ent/notificationoutbox_query.go:404-432 | keys queried once each, an unreferred entity is an error, otherwise each child has the last entity with its key |
| FkLoad.LookUpIsLast | ent/notificationoutbox_query.go:423-431 | of entities with the same key the last one is assigned |
| FkLoad.LookUpKeeps | ent/notificationoutbox_query.go:423-431 | without an entity for its key a child keeps its edge |
| FkLoad.DirectionsAreInverse | ent/notificationoutbox_query.go:423-431 | a notification is among an incident's edges exactly when the incident is the notification's edge |
| Transactions.TxDriver.Exec | ent/tx.go:212-215 | a statement is accepted exactly if the transaction is open and the database takes it; then it is the last of the log and waits for the commit, otherwise nothing changes; either way it is the Run step of the runs below |
| Transactions.TxDriver.Tx | ent/tx.go:194-196 | a builder's begin gets the same driver |
| Transactions.TxDriver.InnerCommit | ent/tx.go:204-206 | a builder's commit changes nothing |
| Transactions.TxDriver.InnerRollback | ent/tx.go:208-210 | a builder's rollback changes nothing |
| Transactions.TxDriver.OnCommit | ent/tx.go:82-88 | the hook joins the list, nothing else changes |
| Transactions.TxDriver.OnRollback | ent/tx.go:138-144 | the same for rollback |
| Transactions.TxDriver.Commit | ent/tx.go:67-80 | the hooks registered at the start, and only those, run around the database's commit |
| Transactions.TxDriver.Rollback | ent/tx.go:123-136 | the hooks registered at the start run around the database's rollback; what that leaves is said by RollbackEnds and RolledBackForGood |
| Transactions.TransactionIsAtomic | ent/tx.go:163-220 | over every run and interleaving, others see their own statements in order, with all of the transaction's as one block if it committed and none otherwise |
| Transactions.StatementHookIsLawful | ent/tx.go:45-59 | a hook that runs statements before and after next is among the hooks of these results |
| Transactions.OnlyCommitPublishes | ent/tx.go:67-80 | only a commit of an open transaction changes what others see, and adds exactly its statements |
| Transactions.RollbackEnds | ent/tx.go:123-136 | a rollback of an open transaction whose hooks call next ends it, drops its statements and leaves what others see |
| Transactions.RollbackAnswers | ent/tx.go:123-136 | with hooks that pass the answer on, it answers Ok |
| Transactions.RolledBackForGood | ent/tx.go:123-136 | in every run after it the transaction stays rolled back, nothing of it is seen, statements and commits are refused |
| Transactions.CommitAnswers | ent/tx.go:67-80 | Ok means committed with exactly the statements of the transaction and its hooks; the database's error means rolled back |
| Transactions.CommitHooksRun | ent/tx.go:67-88 | registered commit hooks run in the order of registration, and what they run before next is committed with the transaction |
| Transactions.CommitHookCanRefuse | ent/tx.go:67-80 | a refusing commit hook keeps the transaction open: earlier hooks ran around it, later ones did not run, nothing is seen |
| Transactions.HooksRunAroundClose | ent/tx.go:67-136 | for commit and rollback alike: first statements of hooks in order, the last ones too late |
| Transactions.OnlyNestingIsRefused | ent/client.go:130-138 | of a builder's own calls only a nested transaction is refused, and none of them touches the open one |
| Transactions.ClosedIsFinal | ent/tx.go:67-136 | a closed transaction never reopens and accepts no statement |
| Transactions.TransactionIsDirectExactly | ent/tx.go:194-210 | builders in a committed transaction leave what they leave on the plain driver exactly when no rolled-back block ran a statement |
| OldValue.Mutation.Old | ent/mutation.go:1341-1360 | the guards, the single fetch, and the stored answer |
| OldValue.OldValuesAreOneSnapshot | ent/mutation.go:1442-1454 | all answers of a run are one answer, at most one fetch happens, only on a first request before the save |
| Delivery.RowsStayShaped | internal/db/notification.go:107-282 | in every run, leases or not: a lease time is present exactly while processing, and a failed row has no retry time |
| DeliveryTimes.RetryTimeIsKept | internal/db/notification.go:115-119 | in every run, from the event that last put a row back on: it is not processing before the retry time set there, and a claim finds the clock at or past it |
| DeliveryTimes.AttemptsAreClaims | internal/db/notification.go:125-129 | in every run the attempts of a row are its claims since it was enqueued or re-driven |
| Delivery.RowsStaySound | internal/db/notification.go:183-211 | with a lease covering send and record, in every run: attempts never exceed the maximum and a pending row has one left, although MarkFailed reads and updates in two statements |
| Delivery.ShortLeaseExceedsAttempts | internal/db/notification.go:183-211 | with any shorter accepted lease and any maximum there is a run that attempts a row once more than allowed |
| Delivery.AttemptsExactly | internal/conf/conf.go:224-237 | of accepted settings exactly those with lease at least SMTP plus update timeout bound the attempts in every run |
| Delivery.NoRowIsStuck | internal/db/notification.go:237-282 | every run has a continuation in which the row is sent or has failed, whatever became of its worker |
| Delivery.SendsAreAccountedFor | internal/notification/worker.go:124-197 | with a lease covering send and record: no row is held twice, and every successful send is marked, about to be marked, or counted as lost |
| Delivery.DeliveredAtMostOnce | internal/notification/worker.go:155-178 | a row is delivered at most once more than outcomes of it were lost |
| Delivery.SentStays | internal/db/notification.go:146-164 | a sent row stays sent until it is pruned |
| Delivery.ShortLeaseDeliversTwice | internal/conf/conf.go:224-237 | with any shorter accepted lease and a positive SMTP timeout there is a run that delivers a row twice with nothing lost |
| Delivery.LeaseExactly | internal/conf/conf.go:224-237 | of accepted settings, a single attempt included, exactly those with lease at least SMTP plus update timeout, or with no time to send at all, account for every send in every run |
| Shutdown.PoolOutlivesWork | cmd/main.go:101-126 | in every interleaving, once the pool is closed no task runs or will run and the worker has returned |
| Shutdown.StopReturnsOnlyWhenDone | internal/scheduler/scheduler.go:88-106 | Stop returns nil only when every task has returned |
| Shutdown.NothingStopsBeforeTheSignal | cmd/main.go:46-56 | until the signal main serves, no task returns and the worker works on |
| Shutdown.ShutdownCanFinish | cmd/main.go:101-147 | every run, also one whose tasks or worker never end, has a continuation in which main finishes |
| Shutdown.WorkerGetsItsTime | cmd/main.go:128-147 | scheduler and worker are given up only after thirty seconds each, and the pool is left open exactly when a wait timed out |
| Shutdown.WaitsAreBounded | cmd/main.go:107-111 | with a main that is at least prompt the waits take at most sixty seconds |
| Shutdown.DrainBudgetExactly | cmd/main.go:101-115 | with an eager main the drain has time left exactly when the last task and the worker ended less than fifteen seconds after shutdown began |
| Shutdown.TimeoutLeavesNothing | cmd/main.go:101-115 | in every run a timeout of either wait leaves no time to drain |
| Shutdown.DrainCanBeStarved | cmd/main.go:101-115 | a run without any timeout in which the drain has no time at all |

## Left out

- NoRowIsStuck: says that a continuation exists, not that every schedule takes it.
- SQL text, sqlgraph, drivers and selectors: they appear as the store contract above.
- What the database makes of an update that sets and adds, or sets and clears, one column: only when a mutation asks for that is stated.
- Predicates, order options, column constants, `X` variants that panic, `SetNillable` variants and upsert setters: one-line forwards.
- Component attributes and incident statuses: builders of the same shape as the ones modelled.
- Notification edges edited from the incident side: they would clear a NOT NULL key.
- Debug clients, whose wrapper hides the transaction from the nesting check, and nesting itself beyond its refusal.
- Hooks that recover from a panic, hooks that write to the database on their own, and commit hooks that close the transaction themselves.
- Commit and rollback of a closed transaction by concurrent goroutines: the driver is not safe for them by its own account.
- Save: closures over shared slices are recursive functions on explicit states; aliasing among builders is not captured.
- createSpec of an incident: given column by column, as the set value and the node's field, not as one procedure.
- JSON payloads, times and their precision, text limits of columns: opaque values; stored bytes that are not JSON are left out.
- ShutdownCanFinish: says that a continuation exists, not that every schedule takes it.
- HTTP draining itself, logging, configuration apart from the lease check, status checking, the static cache and the API handlers.
- Rendering, SMTP, metrics and backoff times of the delivery: the outcome and the retry time of a send are arbitrary.
