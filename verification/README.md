# Zorn's stores, modelled and proved

Zorn is a local server that keeps entities, tasks and objects in three tables over one append-only log of events. This
project models the three stores, the log with its cursors, and the text forms around them, and proves what they keep
over every run.

Each store has two halves. A specification half gives every call as a function on a value that holds the log and the
store's own state (`Entities`, `Tasks`, `Objects`), and lemmas about runs of those functions state the guarantees. A
class half (`EntityStores`, `TaskStores`, `ObjectStores`, over the shared `Databases.Database`) follows the methods of
the source, with fields that the methods update and loops where the source has loops, and each method is proved to take
the state exactly where the specification says and to give the reply it says.

How the parts are modelled:

- JSON is an inductive datatype; an object is a map, and assigning a payload copies it.
- An event has an id, a stream, a subject, a kind, a time and a body. Agent requests also name the id of the row they
  were made from, which the source carries inside the task.
- Time is an integer in microseconds, passed to each call. Date parsing and printing, `str()` of a value that is not a
  string, and the checksum are parameters. `str()` of such a value is taken not to be empty.
- Ids that the source makes up are parameters of the call. The order in which the database returns the rows of a sweep
  is arbitrary.
- Events of the other stores are steps of a store's run; `Servers` puts the three stores over one log, and `ServerRuns`
  shows that a run of the server, seen by one store, is such a run, so the main results hold for every interleaving.
- The file tree below the object root is a map of files and a set of directories named by their path components.

Properties that hold under a condition come with the condition's other half: `Overrides.OverrideUndoneExactly` (the
field's parents were there), `Delivery.SharedCursorLoses` (no other listener uses the same delivery cursor),
`ObjectRuns.AliasBreaksMatch` (no other spelling of the path is stored), `Sse.RoundTripExactly` (clean name and data),
`Liveness.ReviveTellsApart` (no override of the liveness entries), `FieldPaths.SpellingsResolveAlike` (the object does
not hold both spellings), `FieldPaths.NothingLeft` (nor does the object that a leaf is deleted from),
`Concurrency.AheadWinsTwice` (the bound of two is reached).

What the functions of the specification half read, write and answer is also said from the literal entries of payloads,
events and rows, without those functions: in `EntityAnswers`, `LiveListings`, `TaskAnswers`, `ObjectAnswers`, and at the
ends of `Identity`, `Queries` and `Delivery`.

Where the code and its surroundings differ, the model follows the code. Listeners without a name, with an empty name and
with the name `*` poll different events but share one delivery cursor, so delivery to them is exactly once only as long
as one kind of them is used. An object path with an empty or `.` segment has its own row but shares its file with the
shorter spelling. A publish drops the saved bases with the rest of the old payload, so removing an override after it
deletes the field instead of restoring it (`OverrideStores.PublishForgetsBase`). A task created with a `status_version`
but no `statusVersion` starts at version 1.

## Model

| member | source | states |
|---|---|---|
| Text.JoinSplit | src/zorn/stores.py:316 | joining the parts of a split string gives it back |
| Text.ParsePrintedInt | src/zorn/compat.py:96-115 | a printed cursor is read back as the same number |
| Names.SnakeRoundTrip | src/zorn/stores.py:402-418 | a well-formed snake name survives the trip through camel spelling, and the result is a camel name |
| Names.CamelRoundTrip | src/zorn/stores.py:402-418 | a well-formed camel name survives the trip through snake spelling |
| Names.SpellingsAreStable | src/zorn/stores.py:402-418 | each spelling is a fixed point of the conversion towards it |
| FieldPaths.ResolvedFirst | src/zorn/stores.py:390-398 | a segment stands for the first of its text, its camel and its snake spelling that the object holds |
| FieldPaths.SpellingsResolveAlike | src/zorn/stores.py:390-398 | both spellings of a name resolve to one key if and only if the object does not hold both |
| FieldPaths.EitherSpellingReads | src/zorn/stores.py:314-343 | a path reads the same under either spelling of each segment where no object on it holds both |
| FieldPaths.GetFieldPath | src/zorn/stores.py:314-327 | the loop returns the value at the path, null where it leads nowhere |
| FieldPaths.HasFieldPath | src/zorn/stores.py:330-343 | the loop tells whether the path leads to a value |
| FieldPaths.SetFieldPath | src/zorn/stores.py:346-359 | the walk with the moving object writes exactly the specified tree |
| FieldPaths.DeleteFieldPath | src/zorn/stores.py:363-387 | the walk with the moving object deletes exactly the specified leaf |
| FieldPaths.GetAfterSet | src/zorn/stores.py:346-359 | in every tree, a value written at a path is there and is read back |
| FieldPaths.SetKeepsIndependent | src/zorn/stores.py:346-359 | a write leaves what every independent path reads alone, also when it creates or replaces parents |
| FieldPaths.DeleteKeepsIndependent | src/zorn/stores.py:363-387 | a deletion leaves what every independent path reads alone |
| FieldPaths.SetSet | src/zorn/stores.py:346-359 | of two writes at a path the second decides |
| FieldPaths.SetRead | src/zorn/stores.py:346-359 | writing what is there changes nothing |
| FieldPaths.DeleteSet | src/zorn/stores.py:363-387 | deleting undoes a write at an empty path under parents that were there |
| FieldPaths.NothingAfterDelete | src/zorn/stores.py:363-387 | an empty path reads empty again after a write and a deletion, whatever parents they leave |
| FieldPaths.NothingLeft | src/zorn/stores.py:363-387 | a deletion leaves nothing to read at its path if and only if the leaf was there under one spelling at most |
| FieldPaths.SetsCommute | src/zorn/stores.py:346-359 | writes at independent paths under existing parents commute |
| Overrides.OverrideNormal | src/zorn/stores.py:150-158 | an override reads an absent `overrides` as an empty one |
| Overrides.OverrideUndone | src/zorn/stores.py:150-202 | an override of a field that is not overridden, under existing parents, and its removal are the identity on the payload |
| Overrides.OverrideUndoneExactly | src/zorn/stores.py:265-305 | without that condition the field still reads as before, and the payload is restored if and only if the parents were there |
| Overrides.RemovedWithoutBase | src/zorn/stores.py:281-305 | a removal that finds no saved base succeeds and deletes the field: nothing is read there any more (if and only if no second spelling was there), every independent field reads as before, `overrides` and the saved bases lose the field and nothing else |
| Overrides.RemovalRaises | src/zorn/stores.py:178-202 | a removal raises if and only if the override entries are no objects, or the saved base is something but no object |
| Overrides.OverrideNotes | src/zorn/stores.py:265-278 | an override notes its value, and the first time also whether the field was there and what it read, under the names of the payload |
| OverrideRuns.StackUndone | src/zorn/stores.py:150-202 | a stack of overrides, overlapping or nested, undone from the top gives the payload back |
| OverrideRuns.StackRestoresEveryState | src/zorn/stores.py:150-202 | undoing down to any depth restores the state at that depth |
| OverrideRuns.IndependentRuns | src/zorn/stores.py:150-202 | any run of overrides and removals on independent fields never raises, shows the active values, leaves every independent field alone, and restores the payload when none is left |
| OverrideRuns.OverridesAllRemoved | src/zorn/stores.py:265-305 | overrides with repeats in any order, then one removal of each in any order, give the original payload with no internal state |
| OverrideStores.RunPlays | src/zorn/stores.py:150-202 | as long as a stored entity is neither published again nor swept while due, its payload goes through exactly the overrides and removals that name it, among any other calls |
| OverrideStores.StoreRestored | src/zorn/stores.py:150-202 | the same restoration for a stored entity, with other calls in between |
| OverrideStores.PublishForgetsBase | src/zorn/stores.py:178-202 | after a publish a removal finds no base, whatever was overridden before: it deletes the published field, leaves every independent field as published and takes the field out of `overrides` |
| OverrideStores.OverridePublishRemove | src/zorn/stores.py:281-286 | so override, publish, remove loses the field |
| Compat.PublicHidesInternal | src/zorn/compat.py:132-164 | the public view never shows the saved bases and does not depend on them |
| Compat.PublicEntries | src/zorn/compat.py:132-139 | no raw name is shown; each wire name shows its own value, or that of the raw name where it has none; an entry without a second name is shown as it is |
| Compat.PublicProvenanceEntry | src/zorn/compat.py:140-148 | the source time in the provenance is shown under its wire name, and nothing else there changes |
| Compat.PublicMetadataEntry | src/zorn/compat.py:149-162 | so is the one in the metadata's provenance |
| Identity.GetNestedValue | src/zorn/identity.py:17-26 | the loop returns the value along the path, null where it leaves the objects |
| Identity.NestedBelow | src/zorn/identity.py:29-32 | reading a string below an entry is reading it from the object in the entry |
| Identity.EntityIdSaid | src/zorn/identity.py:35-42 | the id of an entity is what the first of these four paths with a text says, none if and only if no path says anything |
| Identity.TaskIdSaid | src/zorn/identity.py:52-60 | the same for a task and its six paths |
| Identity.AssigneeSaid | src/zorn/identity.py:64-81 | the same for the assignee and its fourteen paths |
| Identity.SourceTimeSaid | src/zorn/identity.py:84-90 | the same for the source time and its four paths |
| Identity.SaysOne | src/zorn/identity.py:7-14 | some paths say one thing only |
| Databases.Database.AddEvent | src/zorn/events.py:15-33 | the event is appended with the next id, which is returned |
| Listings.OrderBy | src/zorn/stores.py:497-505 | the selected ids, each once, in the order of their sequence |
| Listings.List | src/zorn/stores.py:128-136 | the loop returns what an ordered query may return |
| Listings.OneReply | src/zorn/stores.py:128-136 | an ordered query has at most one reply |
| Listings.ListsTransfer | src/zorn/stores.py:128-136 | two tables that order and show a selection alike list it alike |
| Events.PageIsWindow | src/zorn/events.py:45-67 | a page is exactly the stream's events between its cursor and the next one, at most the clamped limit, and empty only when nothing waits |
| Events.PageSize | src/zorn/events.py:45-67 | a page is the first of the waiting events: as many as wait, but no more than the limit and 1000, and one for a limit below 1 |
| Events.TokenOfEntry | src/zorn/compat.py:96-115 | a number is its own cursor, nothing and blank or unreadable text stand for the default |
| Events.PagesCover | src/zorn/routes/entities.py:69-76 | feeding each token into the next poll, with any limits and any writes in between, the pages are the stream's events from the first token to the last |
| Events.BacklogDrains | src/zorn/routes/entities.py:69-76 | with no writes in between, polls with enough room for the backlog return all of it |
| Events.MaxEventIdBounds | src/zorn/events.py:36-42 | no event of the stream has a greater id |
| Events.OpensAtEnd | src/zorn/routes/entities.py:106-107 | a cursor opened at the stream's last event waits for exactly the events logged later |
| Events.FollowStream | src/zorn/routes/tasks.py:127-143 | the cursor of a stream's live phase is where its rounds bring it, and what was sent, followed by what still waits, is every event logged after the opening that the filter lets through, once and in order |
| Events.RoundProgress | src/zorn/routes/tasks.py:131-136 | every round moves the cursor over 100 rows or leaves nothing waiting |
| Events.FollowDrains | src/zorn/routes/entities.py:106-113 | once the log stands still, ceil(n / 100) rounds leave nothing of n waiting events |
| Events.SendPage | src/zorn/routes/tasks.py:132-143 | one round sends the rows of a page that the filter lets through and moves the cursor over all of them |
| EntityRuns.RunConsistent | src/zorn/stores.py:54-248 | in every reachable state the entity table is the replay of the log, and each entity's events start with CREATE or DELETED, have no later CREATE and no two DELETED in a row, and end as the row stands |
| EntityRuns.LiveBetweenDeletes | src/zorn/stores.py:81-108 | when two calls of a run both log DELETED for an entity, it is dead right after the first and live right before the second |
| EntityRuns.TableMeaning | src/zorn/stores.py:72-110 | a row has the id and the payload of its entity's last event, and an entity without a row has no events |
| EntityRuns.StepExact | src/zorn/stores.py:81-108 | a call logs CREATE exactly from absent to live, DELETED exactly from absent or live to not live, UPDATE for other changes, nothing without one |
| LiveListings.ListsWhatGetShows | src/zorn/stores.py:124-136 | a listing holds exactly the entities that a `get` at that instant finds live, each once, as that `get` shows it, in the order of their last events |
| LiveListings.RunsListWhatGetShows | src/zorn/stores.py:116-136 | so it does after every run from the empty store |
| LiveListings.SweptRow | src/zorn/stores.py:216-248 | a sweep makes a live row whose expiry is over dead, in the row and in both entries of the payload, logs that payload as DELETED, and leaves any other row alone |
| LiveListings.LiveUntilExpiry | src/zorn/stores.py:54-136 | an accepted publish is found live, and so listed, exactly when its payload says live and until its expiry time, through any run that does not publish it again |
| Convergence.PublishesConverge | src/zorn/stores.py:73-100 | with source times enforced, an entity's events are exactly the running maxima of its arrivals, and its payload is one with the greatest source time |
| Convergence.OrderDoesNotMatter | src/zorn/stores.py:204-214 | two runs that publish the same payloads with distinct source times in different orders store the same payload |
| LazyExpiry.SameTraces | src/zorn/stores.py:116-148 | over any run the store that expires at reading can give exactly the replies of one that expires each entity at its instant |
| LazyExpiry.LazyRefinesEager | src/zorn/stores.py:216-248 | the replies of the two stores, listing order included, are equal |
| LazyExpiry.LazyRefinesEagerFromStart | src/zorn/stores.py:116-136 | both statements from the empty store on |
| Liveness.ReviveTellsApart | src/zorn/stores.py:150-176 | an override that makes a due entity live before it is swept tells the two stores apart, so the runs above exclude such overrides |
| Liveness.RevivedRunDiffers | src/zorn/stores.py:216-241 | publish with an expiry, revive at that instant, get: from the empty store such a run gives replies that the eager store cannot give |
| Liveness.RevivedExample | src/zorn/stores.py:216-241 | one such payload, for every server whose clock reads its expiry time |
| Publishing.AdmitMeaning | src/zorn/stores.py:55-71 | a publish passes exactly when its payload has an id or may get one, a live entity has not expired and nothing expires too late unasked; what is stored names the entity by the trimmed id in the payload or the new one, reads as live as the row is, keeps the expiry, and keeps every other entry |
| Publishing.AdmittedAgain | src/zorn/stores.py:55-71 | what a publish stores is admitted again as it is, under the same id, by any later call before it expires |
| Publishing.EntriesRead | src/zorn/stores.py:60-63 | which entry decides on liveness, on expiring at all and on the expiry time |
| EntityAnswers.RefusedExactly | src/zorn/stores.py:55-69 | a publish is refused, and changes nothing, exactly without an id that is needed, for a live entity that has expired, or for an expiry more than 2 592 000 seconds away unasked |
| EntityAnswers.IgnoredExactly | src/zorn/stores.py:204-214 | a publish that passes leaves table and log alone if and only if source times are enforced, the entity is stored, both payloads say a time and the new one is not later |
| EntityAnswers.IgnoredByEntries | src/zorn/stores.py:73-77 | from the entries that date the two payloads, the camel spelling under `provenance` before the snake one and `metadata.provenance` after both: with times n and m, if and only if n <= m |
| EntityAnswers.IgnoredReply | src/zorn/stores.py:73-77 | an ignored publish answers the stored payload with the note in its `_compat` entry, and raises exactly when that entry is no object |
| EntityAnswers.AcceptedReply | src/zorn/stores.py:81-112 | an accepted one answers what it stored with the id and the name of its event |
| EntityAnswers.PublishedRow | src/zorn/stores.py:81-110 | the row it leaves |
| EntityAnswers.OverrideAnswers | src/zorn/stores.py:150-202 | an override and a removal answer what a `get` at that instant then shows, and fail without a change exactly when the override entries cannot be read or put back |
| EntityStores.EntityStore.Publish | src/zorn/stores.py:54-114 | the new table and log, and whether the publish was refused, raised over a stored note, or which payload it returned with which note (`EntityAnswers` says from the entries which) |
| EntityStores.EntityStore.ExpireDueEntities | src/zorn/stores.py:216-248 | the loop is a sweep over rows that include every due one |
| EntityStores.EntityStore.Get | src/zorn/stores.py:116-122 | the swept state and the public view of the entity |
| EntityStores.EntityStore.SelectLive | src/zorn/stores.py:128-136 | the public views of the rows that a `get` finds live, in the order of their last events |
| EntityStores.EntityStore.ListLive | src/zorn/stores.py:124-136 | the swept state, and the listing of exactly the entities that a `get` finds live then, in the order of their last events |
| EntityStores.EntityStore.Poll | src/zorn/stores.py:138-148 | the swept state and the page of entity events |
| EntityStores.EntityStore.CaptureOverrideBase | src/zorn/stores.py:265-278 | the base is saved once |
| Overrides.OverrideValueMeaning | src/zorn/stores.py:251-257 | a value stands for itself unless it is an object that holds something, not null, at the field's own path |
| Overrides.WrappedOverride | src/zorn/stores.py:251-257 | giving a value inside any object at the field's own path overrides the field just as giving it bare |
| EntityStores.EntityStore.OverrideField | src/zorn/stores.py:150-176 | the new state and reply of an override |
| EntityStores.EntityStore.RestoreOverrideBase | src/zorn/stores.py:281-305 | the base is put back and forgotten, or the field deleted where none is saved (`Overrides.RemovedWithoutBase`) |
| EntityStores.EntityStore.RemoveOverride | src/zorn/stores.py:178-202 | the new state and reply of a removal, with a saved base (`Overrides.OverrideUndoneExactly`) or without one |
| Tasks.RestatedStatus | src/zorn/stores.py:813-819 | a restated payload reads back the status that was written, whatever the default |
| Tasks.RestatedFrame | src/zorn/stores.py:540-556 | a change of status leaves the assignee and the place of execution alone |
| Tasks.RestatedVersion | src/zorn/stores.py:544-554 | the version that was written is read back, except that 0 reads as 1 |
| TaskAnswers.ConflictsExactly | src/zorn/stores.py:530-555 | on an open task at version v, an update whose first integer among its four version entries is n is answered by a conflict and changes nothing if and only if n < v, one without an integer if and only if naming one is enforced; otherwise the larger of n and v + 1 is written |
| TaskAnswers.StatusVersionDecides | src/zorn/stores.py:793-810 | an integer in `statusVersion` decides whatever the other entries are |
| TaskAnswers.RefusedBefore | src/zorn/stores.py:522-531 | when the task is missing, terminal or its version cannot be read; a refusal changes nothing |
| TaskAnswers.VersionByEntries | src/zorn/stores.py:530-531 | which entry a task's version is read from |
| TaskAnswers.NormalByEntries | src/zorn/stores.py:766-790 | the status object an update stores: the entries of `newStatus`, `new_status`, an object under `status` or the payload, with the first name found in it or in the payload as text |
| TaskAnswers.StatusByEntries | src/zorn/stores.py:813-819 | which entry a status is read from |
| TaskAnswers.PlainUpdateEnds | src/zorn/stores.py:17-28 | an accepted update that names a status ends the task exactly when it is one of ten names |
| TaskAnswers.ChangedEntries | src/zorn/stores.py:541-555 | what a change of status writes into the payload, entry by entry, and that it keeps the rest |
| TaskAnswers.UpdatedColumns | src/zorn/stores.py:556-568 | the columns after an accepted update |
| TaskAnswers.CanceledEntries | src/zorn/stores.py:591-613 | the columns, the status entry and the version after a cancel |
| TaskAnswers.CancelAnswers | src/zorn/stores.py:583-591 | which refusal answers a cancel, or the terminal task |
| TaskRuns.StepKeeps | src/zorn/stores.py:427-638 | every call keeps the invariant of the task store |
| TaskRuns.RunConsistent | src/zorn/stores.py:427-697 | in every reachable state rows repeat the last task event, columns agree with payloads, versions grow along a task's events, a cancel is last, and requests are sent once each in their order |
| TaskRuns.TerminalAbsorbs | src/zorn/stores.py:526-635 | after a task is terminal its row never changes and no event about it is logged |
| Delivery.RunCarries | src/zorn/stores.py:449-473 | over every run each request directly follows the task event it was made with and carries the same payload, an execute request with its assignee, a cancel request with the cancel in its status |
| ServerRuns.ServerCarries | src/zorn/stores.py:615-634 | so it does over every run of the server |
| Queries.IndexAnswersFromLog | src/zorn/stores.py:487-511 | the columns answer a query if and only if the walk over the log and the payloads gives that answer, in the same order |
| Queries.QueriesAnswerFromLog | src/zorn/stores.py:640-649 | so they do after every run |
| Queries.StatusesAsked | src/zorn/stores.py:835-858 | which statuses the filters ask for, from their entries |
| Queries.AssigneeAsked | src/zorn/stores.py:490-494 | which assignee |
| Queries.TypeAsked | src/zorn/stores.py:879-889 | which type |
| Queries.TypeOfTask | src/zorn/stores.py:892-898 | which type a task has |
| Queries.PlainQuery | src/zorn/stores.py:487-511 | a query by status, assignee and type, each or none, selects exactly the tasks whose payloads have what is asked for |
| Queries.OpenQuery | src/zorn/stores.py:640-649 | the open tasks for an assignee are those that have not ended and are assigned to it or to nobody |
| Concurrency.StepTakesRoom | src/zorn/stores.py:526-552 | an accepted update takes a place among those that expect its version, and no call gives one back |
| Concurrency.WinnersBounded | src/zorn/stores.py:526-552 | at most two accepted updates expect one version, at most one once the task has reached it, none after |
| Concurrency.OneWriterWins | src/zorn/stores.py:793-810 | of the writers that read an open task's version the first wins and it alone |
| Concurrency.AheadWinsTwice | src/zorn/stores.py:547-551 | two updates that expect a version ahead of the task both win while it stays open |
| Delivery.ClaimTakesFirst | src/zorn/stores.py:675-697 | a claim takes the first waiting request and moves the cursor just past it |
| Delivery.ClaimsAreWindow | src/zorn/stores.py:675-697 | over any run a listener's claims are the requests whose subject is its name or "*", or all of them for none, between its first cursor and its last, in order |
| Delivery.ExactlyOnce | src/zorn/stores.py:675-697 | what a listener has claimed followed by what waits for it is every request ever sent with its name or "*" as subject, or every request for a listener without a name |
| Delivery.WindowIsSent | src/zorn/stores.py:662-673 | what a listener's filter cuts out of the log are the agent events whose subject is its name or "*", in order |
| Delivery.ClaimsAreFor | src/zorn/stores.py:662-673 | everything a listener claims in any run is such a request, whoever shares its cursor |
| Delivery.NeverAnothers | src/zorn/stores.py:664 | a named listener never claims a request of a task that is assigned to another agent |
| Delivery.NothingOnlyWhenDrained | src/zorn/routes/tasks.py:156-167 | in every reachable state a claim returns nothing if and only if nothing waits |
| Delivery.CancelsFollowExecutes | src/zorn/stores.py:622-634 | a listener that claims a cancel has claimed the task's execute request before it if and only if the task is not executed elsewhere |
| Delivery.SharedKeys | src/zorn/stores.py:676 | two listeners share a cursor if and only if neither has a name of its own |
| Delivery.SharedCursorLoses | src/zorn/stores.py:676-680 | whenever two listeners share a cursor some run gives one of them a cancel without its execute request and drains its backlog |
| NewTasks.KeptEntry | src/zorn/stores.py:700-763 | a new task keeps every entry of its payload but the ones that are filled in and three that are rewritten |
| NewTasks.NewTaskNamed | src/zorn/stores.py:700-712 | a new task names itself by the id in the payload, or by the new id unless both id entries are there and blank |
| NewTasks.NewTaskAssignee | src/zorn/stores.py:731-753 | a new task has the assignee and the place of execution of its payload, whatever spellings are filled in |
| NewTasks.NewTaskStatus | src/zorn/stores.py:717 | a new task has a status, read alike whatever the default: that of an object as a status update would name it, any other value as the name |
| NewTasks.NewTaskVersion | src/zorn/stores.py:704-711 | a new task stands at the version given as `statusVersion`, otherwise at 1 whatever `status_version` says |
| NewTasks.CreatedAgain | src/zorn/stores.py:700-763 | creating from a created payload keeps its id entries, its version entry and its assignee |
| TaskAnswers.CreatedExactly | src/zorn/stores.py:427-447 | a create that names its task succeeds if and only if its version entry can be read and the name is free; the columns of the row; a refusal changes nothing |
| TaskAnswers.CreatedUnnamed | src/zorn/identity.py:52-60 | without a name the task gets the new id |
| TaskAnswers.CreateReply | src/zorn/stores.py:475-476 | the note on the returned payload |
| TaskAnswers.FilledTimes | src/zorn/stores.py:702-716 | the four times are those of the payload, or that of the call |
| TaskAnswers.FilledVersion | src/zorn/stores.py:703-709 | the version entry, key by key |
| TaskAnswers.FilledAuthors | src/zorn/stores.py:754-761 | who made and last updated the task |
| TaskAnswers.FilledSpellings | src/zorn/stores.py:718-730 | the display name and the specification |
| TaskAnswers.SpecificationType | src/zorn/stores.py:724-728 | the type under both names |
| TaskAnswers.SystemSpellings | src/zorn/stores.py:737-746 | the assignee's system under both spellings |
| TaskAnswers.CreateLogs | src/zorn/stores.py:449-473 | a create logs the task, and unless its payload says that it is executed elsewhere an execute request to its assignee or to everyone |
| TaskStores.TaskStore.Create | src/zorn/stores.py:427-478 | the new row, the task event and the execute request with the payload and its note returned, or no change when the call raises |
| TaskStores.TaskStore.RestatePayload | src/zorn/stores.py:540-556 | the status, time and version entries after a change of status |
| TaskStores.TaskStore.UpdateStatus | src/zorn/stores.py:513-572 | the new state, or which of the refusals answers (`TaskAnswers` says from the entries which) |
| TaskStores.TaskStore.Cancel | src/zorn/stores.py:574-638 | the new state with the cancel request, or which of the refusals answers |
| TaskStores.TaskStore.Query | src/zorn/stores.py:487-511 | the answer of the naive walk over the log and the payloads |
| TaskStores.TaskStore.ListOpen | src/zorn/stores.py:640-649 | the open tasks that the naive walk finds, in order |
| TaskStores.TaskStore.PollAgent | src/zorn/stores.py:662-673 | the page is exactly what was sent to the listener, by the subjects of the events, between its cursor and the last event of the page, no more than the clamped limit, and empty only when nothing waits |
| TaskStores.TaskStore.ClaimAgentRequest | src/zorn/stores.py:675-697 | the loop returns the first request after the cursor whose subject is the listener's name or "*", and leaves the cursor where the claim leaves it |
| ObjectRuns.RunTree | src/zorn/stores.py:911-1077 | in every reachable state the files form a tree |
| ObjectRuns.RunInStep | src/zorn/stores.py:931-1067 | each object's history is (CREATE UPDATE* DELETED)* (CREATE UPDATE*)?, its row exists if and only if the last block is open, and the row is what the last event says |
| ObjectRuns.RunMatch | src/zorn/stores.py:911-1025 | as long as no other spelling is stored at its place, an object's file is the one its metadata describes |
| ObjectRuns.FetchMatches | src/zorn/stores.py:970-986 | what a fetch then returns has the size and the checksum in its metadata |
| ObjectRuns.CanonicalFetchMatches | src/zorn/compat.py:206-218 | with paths without empty and `.` segments this holds for every fetch in every reachable state |
| ObjectRuns.AliasBreaksMatch | src/zorn/stores.py:923-927 | two spellings of one place make the first path describe the bytes of the second |
| ObjectRuns.LostSegment | src/zorn/compat.py:206-218 | an empty or `.` segment put anywhere into an accepted path is accepted too, and gives such a second spelling |
| ObjectRuns.DoubledSlash | src/zorn/stores.py:923-927 | one such pair in one run: a fetch of "a/b" says one byte and returns none |
| ObjectRuns.FetchAfterPut | src/zorn/stores.py:911-986 | what was put is fetched with the metadata the put returned, after any calls that leave it alone |
| ObjectAnswers.FetchedUntilExpiry | src/zorn/stores.py:970-986 | what was put can be fetched exactly until its time to live in seconds is over, after any calls that do not name its place or one above it |
| ObjectAnswers.PutRefuses | src/zorn/stores.py:920-922 | content that is too large and a path that is not valid are refused and change nothing |
| ObjectAnswers.PutFails | src/zorn/stores.py:923-927 | any other put fails exactly for a file in the way of its directories or a directory in its place, and leaves table, log and files alone |
| ObjectAnswers.PutAnswers | src/zorn/stores.py:926-967 | what a put stores and answers, entry by entry |
| ObjectAnswers.ValidExactly | src/zorn/compat.py:206-218 | which paths are accepted, and in which form |
| ObjectRuns.DeleteTakesTree | src/zorn/stores.py:1017-1023 | deleting a path above an object takes its bytes and leaves its metadata |
| ObjectStores.ObjectStore.Put | src/zorn/stores.py:911-968 | the new row, file and event, or which failure answers and what it leaves |
| ObjectStores.ObjectStore.PruneIfExpired | src/zorn/stores.py:1054-1077 | an expired row goes with its file and a DELETED event |
| ObjectStores.ObjectStore.Get | src/zorn/stores.py:970-986 | the bytes with their metadata, nothing, or the failure of reading a directory |
| ObjectStores.ObjectStore.Metadata | src/zorn/stores.py:988-997 | the metadata of a row that has not expired |
| ObjectStores.ObjectStore.Delete | src/zorn/stores.py:999-1025 | the row goes with its event, and the file or the whole directory with it or without it |
| Servers.RunConsistent | src/zorn/db.py:58-67 | over every interleaving of calls to the three stores every table is what the shared log says |
| ServerRuns.TaskProjection | src/zorn/db.py:58-67 | seen by the task store, a run of the server is a run of that store with the other stores' events in between |
| ServerRuns.EntityProjection | src/zorn/db.py:58-67 | the same for the entity store |
| ServerRuns.ObjectProjection | src/zorn/db.py:58-67 | the same for the object store |
| ServerRuns.ServerDelivers | src/zorn/stores.py:675-697 | exactly-once delivery over every run of the server, by the subjects of the events |
| ServerRuns.ServerOrdersRequests | src/zorn/stores.py:622-634 | cancels follow their execute requests over every run of the server, exactly for tasks not executed elsewhere |
| ServerRuns.ServerBoundsWinners | src/zorn/stores.py:526-552 | the bound on accepted updates over every run of the server |
| ServerRuns.ServerConverges | src/zorn/stores.py:73-100 | convergence of publishing over every run of the server |
| ServerRuns.ServerExpiresLazily | src/zorn/stores.py:116-136 | after every run of the server, get and list answer as the store that expired every entity at its instant |
| ServerRuns.ServerMatches | src/zorn/stores.py:911-1025 | files match their metadata over every run of the server |
| Sse.HttpSseEvent | src/zorn/cert/runners/common.py:147-172 | the loop over the lines reads what the line-by-line definition reads |
| Sse.RoundTrip | src/zorn/events.py:83-86 | the parser gives back the name and the data of a printed frame and stops right behind it, whatever follows |
| Sse.RoundTripExactly | src/zorn/cert/runners/common.py:147-172 | for one-line data it does so if and only if name and data have no line break and no white space at their ends |
| Sse.StreamRoundTrip | src/zorn/events.py:83-86 | a whole sequence of frames is read back in order |

## Left out

- Database sessions, flushing and change detection: every call is one atomic step on values.
- Nested dicts changed in place: the walks of set and delete copy the objects they pass, so sharing between a payload and a loaded row is not captured.
- Names outside ASCII: upper and lower case are those of the ASCII letters.
- `dict()` of a list of pairs, and numbers that are no finite reals.
- EntityStores.EntityStore.Poll: returns the events; turning an event into a payload and the keys an event carries beside its entity or task are not modelled.
- TaskRuns.RunConsistent: a cancel is taken to be called with a status name that is not empty, as its callers do.
- LazyExpiry.SameTraces: overrides of the liveness entries are excluded (`Liveness.ReviveTellsApart` shows why), as are replies of polls, whose logs may differ.
- Delivery.ExactlyOnce: one lifetime of the server, since the cursors live in memory.
- That a stream's snapshot and its live phase together cover every event: the snapshot is taken before the cursor.
- Stream heartbeats and the matching of task streams, which is a parameter here.
- Object listing by prefix, whose matching rules are the database's; its pruning of expired rows is a step of the runs.
- Several readings of the clock within one put, limits on file names, and file systems that fold case.
- Dates, JSON text and the checksum, which are parameters.
- gRPC services, authentication, configuration, certification runners other than the event parser, replay, and fixtures.
