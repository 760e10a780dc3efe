# A verified model of the generated persistence layer

The persistence layer under `backend/ent` is generated from schema descriptions: for every entity a query builder,
create, update and delete builders, and a node type. All entities follow one template. This project models that
template once, with the entity's description (columns, foreign keys, edges, type switches, checks) as data, and proves
what its four algorithmic parts do. `Entities.dfy`, `Edges.dfy` and `Repository.dfy` apply the results to the entities
of the repository.

## The parts

**Reading.** `Records` has the scan and assign switches of a node. `Store` says which rows a SELECT statement returns:
tables are sequences of rows with unique keys, a join table is a sequence of pairs (which may repeat), and the order
among equally sorted rows is any that the database chooses. `Queries` has the builder as a class: its fields are
updated in place, it compiles to a statement in two ways (`QuerySpec` for nodes, `SqlQuery` for single columns), and it
is cloned deeply. `Nodes` and `Distribute` have the loops over Go maps: a row becomes a node, nodes are indexed by id,
neighbours are handed to their owners. `EagerLoad` has `sqlAll` and the three kinds of loaders as mutually recursive
methods over a tree of builders and a heap of nodes.

What a load puts into memory is said twice. `Shapes.Shows` says exactly what the nodes of a query hold, at every depth,
whatever the windows of the sub-queries and however often rows repeat: which batch each loader queries for, and which
neighbours of it end up in which slot, in which order. `EagerLoad.SqlAll` guarantees it after any number of batched
loads, hash-map distributions and in-place appends, and never fails for valid fields. `Joins.Carries` says what the query
means, without batches: for one row, look through every row of the neighbour table and keep those that are linked and
selected, and so on for the neighbours (a nested-loop join). `Meaning` relates the two, edge by edge and for the whole
tree, and `Terminals.LoadMeans` states it of an executed query. Three conditions are exact:

- A node whose key is repeated by a later row of the same result gets no list edges (the maps keep the last node of a
  key). When no window drops anything, a node carries what its query asks for if and only if its row is served.
- A limit or an offset on the builder of an edge cuts the batch of all owners together. All nodes carry what their query
  asks for, at every depth, if and only if every window keeps the whole batch of the rows above it and every row is
  served (`Windows.WindowsDecide`).
- `IDs` equals the ids of `All` if and only if the two compilations window alike: a zero limit is no limit for one and
  no rows for the other, and an offset without a limit caps the other at 2147483647 rows.

`Rows` says which rows an executed query reads before its window, without going through the statement: those that the
path or the table has and that pass the predicates, each once or as often as they are reached, in lexicographic order of
the order terms; and which part of them `All` and `IDs` return. `NodeData` says what of its row a node holds, at every
depth, and follows a creation from the create builder to the node of a later query. `Example` gives a database that meets
all assumptions, and inputs on which each of these differences shows.

**Hooks.** `Hooks` models a mutator as a function of the state and the mutation, so a hook may do anything before,
after and instead of calling its successor, any number of times. `BulkCreate` has the chain of closures of a bulk
create as recursive methods over builders, mutations and nodes on the heap, and `Chains` what such a chain does: a hook
decides after each call whether it calls again, and in the end what it returns, which may be the error of its last call,
no error, or an error of its own.

**Updating edges.** `Updates` has the accumulation of edge changes in a mutation and the Clear and Add lists that Update
and UpdateOne build from it, with what they do to the neighbours of a node.

**Runs.** `Runs` is a state machine over the stored rows with every builder's save as a step, O2M edges included, whose
foreign keys are in the rows of other tables. `Effects` says what each step does to the rows and what it leaves alone,
`Soundness` what every stored row keeps satisfying over all runs, `InTurn` that a bulk create is its creates in turn, and
`BulkRuns` that the builders of a bulk create do what the step does. `Outcomes` says when an operation succeeds, as an
if-and-only-if, and with which error it fails. `Repository` instantiates all this with the foreign keys and required edges
of all tables but the join tables, and with the checks and defaults of accounts, API keys and account events. For these,
`Checks` says which creations and updates pass and what the smallest creations store, and `Deletions` which deletions
are refused, what goes with the deleted rows and what stays. `ForeignKeys` ties the foreign keys of the database to the
edges of the entities, both ways.

## What the code does that its reader may not expect

Each of these is a lemma.

- Adding a neighbour and then clearing the edge in one mutation keeps the neighbour
  (`ClearDoesNotTakeBack`; exactly when is `MeansItsCalls`).
- Clearing an account's events or a user's API keys passes every check of the builder. That no event is left without its
  account rests on the NOT NULL column alone (`ClearEventsRefused`, `ClearAPIKeysRefused`, for every required edge
  `ClearRequiredRefused`; exactly when is `ClearRestsOnNotNull`).
- Adding to a validated number is not checked (`AddedPriorityIsNotChecked`; exactly when this matters is
  `PatchedSound`).
- A bulk create checks the mutation that the builder had and inserts the one that its hooks hand on
  (`BulkChecksTheOldMutation`).
- A bulk create whose hooks call once each, and hand on the mutation they are given, leaves exactly the right builders
  through, with the right error, if and only if its hooks are faithful: at every builder on the way out an error comes
  back exactly if one was met, and what comes out in the end is what was met (`RightIfFaithful`; for separate and
  unsaved mutations `AccountCreateBulk.Save` is all or nothing if and only if they are). Hooks that pass errors on are
  faithful (`HonestIsFaithful`); one that reports an error of its own after a success is not, and leaves a saved row
  behind an error (`SavedWithError`).
- When the way in ends before the insert, because a hook drops its call or a check fails, nothing is inserted, and yet
  those builders' mutations are marked as done that the way in got past and to which no error comes back (`MarkedUnsaved`
  for hooks that call at most once, `DroppedCallMarksUnsaved` for any number of calls when no error arises, with
  `FirstMarkedOnly` as an instance).

## Model

| member | source | states |
|---|---|---|
| Records.ScanValues | backend/ent/account.go:113-136 | one destination a column, of the type that the scan switch gives it, in any column order |
| Records.AssignValues | backend/ent/account.go:140-260 | too few values are an error; otherwise the columns are assigned in order up to the first error |
| Records.ScanThenAssign | backend/ent/account.go:113-260 | for every column list (repeats and unknown names included) assigning what was scanned never meets a type mismatch and gives exactly the record of the row |
| Queries.IDFirstAndOnce | backend/ent/account_query.go:717-725 | whatever fields are selected, the id is the first column and appears once, and the other columns are the selected ones |
| Queries.Query.Where | backend/ent/account_query.go:40-43 | the predicates are appended and nothing else changes, in this builder or those of its edges |
| Queries.Query.Limit | backend/ent/account_query.go:46-49 | only the limit changes |
| Queries.Query.Order | backend/ent/account_query.go:65-68 | the terms are appended and nothing else changes |
| Queries.Query.With | backend/ent/account_query.go:362-371 | the builder of one edge is replaced, the others stay |
| Queries.Query.PrepareQuery | backend/ent/account_query.go:452-476 | fails exactly when a selected field is neither a column nor a foreign key, naming such a field and changing nothing; otherwise a traversal gets its source rows |
| Queries.Query.QuerySpec | backend/ent/account_query.go:709-747 | the first compilation of the builder, tied to SpecOf; what it reads is stated without it by Rows.RowsBeforeWindow, Rows.RowsInWindow and NodeData.LoadedData |
| Queries.Query.SqlQuery | backend/ent/account_query.go:749-779 | the second compilation, tied to SelectorOf; the two are related by SameBeforeWindow |
| Queries.Query.Clone | backend/ent/account_query.go:340-358 | a fresh builder tree, disjoint from the original at every depth, in the same state but for the withFKs flags |
| Clones.ClonedAlike | backend/ent/account_query.go:340-358 | the state of a clone: field by field that of the original, at every depth, with the flags off |
| Clones.CloneAndDiverge | backend/ent/account_query.go:338-358 | any later configuration of the clone and of the original leave each other alone |
| Clones.CloneLoadsTheSame | backend/ent/group_query.go:363-382 | an unflagged builder and its clone read the same rows and load the same, windows of sub-queries included |
| Clones.CloneShowsTheSame | backend/ent/group_query.go:363-382 | for any builder, a flagged root included: what it shows is what its clone shows with the keys that the flag adds |
| Nodes.ScanNodes | backend/ent/account_query.go:496-504 | one fresh node a row, with the row's record and the loaded flags |
| Nodes.SplitJoined | backend/ent/account_query.go:571-586 | in a joined row the first value is the owner's key and the second the neighbour's id, and the inner scan sees the columns it would see without the join |
| Nodes.ScanJoined | backend/ent/account_query.go:567-589 | from a stream of joined rows with repeats: one node for each distinct neighbour, in order of first occurrence, and for each neighbour the set of its owners |
| Distribute.IndexByID | backend/ent/account_query.go:545-554 | the ids in node order and a map from each id to the last node that has it; the edge lists are emptied and nothing else changes |
| Distribute.HandOutByKey | backend/ent/account_query.go:686-696 | each owner's list is extended by exactly the neighbours with its key, in their order; the error cases cannot occur on a filtered batch |
| Distribute.HandOutPaired | backend/ent/account_query.go:594-602 | the same for owner sets, whatever order a Go map is walked in |
| Distribute.GroupByKey | backend/ent/account_query.go:606-617 | the distinct keys in order of first occurrence, and for each key exactly the nodes that hold it; nil keys are left out |
| Distribute.HandOutOne | backend/ent/account_query.go:626-634 | each node gets the neighbour whose id is its key, if there is one |
| Batches.FilteredBatch | backend/ent/account_query.go:678-682 | the one query of an O2M or M2O load: before the window exactly the selected rows that satisfy the IN filter, each once; after it some of them, each once and sorted, and all of them if the window drops none |
| Batches.JoinedBatch | backend/ent/account_query.go:555-563 | the one query of an M2M load: before the window exactly the pairs of asked-for owners and selected neighbours; after it some of them, sorted, and all of them if the window drops none |
| EagerLoad.LoadO2M | backend/ent/account_query.go:668-698 | window or not: the slot of each node holds exactly the rows of the batch that name it, in batch order, or nothing if a later node repeats its key; each neighbour is what its own query shows; other edges stay as they are |
| EagerLoad.LoadM2O | backend/ent/account_query.go:605-636 | window or not: the slot of each node holds the row of the batch that its key names, or nothing if the batch has none |
| EagerLoad.LoadM2M | backend/ent/account_query.go:544-604 | window or not: the slot of each node holds exactly the rows that the stream of pairs has for it, once each, in the order of their first occurrence in the stream, or nothing if a later node repeats its key; a neighbour of several owners is one node |
| EagerLoad.LoadEdges | backend/ent/account_query.go:514-540 | the loads of several edges do not disturb each other |
| EagerLoad.SqlAll | backend/ent/account_query.go:478-542 | for every tree of builders: the nodes of the rows with exactly the batches that the loaders query for in their slots, at every depth; it terminates and does not fail for valid fields |
| Meaning.TreeMeans | backend/ent/account_query.go:478-542 | eager loading against nested-loop joins, at every depth: without a cutting window a node carries what is asked for if and only if its row is served; all nodes do if and only if no window below cuts and all rows are served |
| Meaning.EdgeMeans | backend/ent/account_query.go:544-698 | the same for one edge of all three kinds |
| Meaning.NodeEdge | backend/ent/account_query.go:514-540 | the same for one edge of one node, whatever the node's other edges are like |
| Meaning.UniqueCarry | backend/ent/account_query.go:544-554 | when keys do not repeat, every node carries exactly what the query asks for if and only if no window drops anything |
| Meaning.EmptyMisses | backend/ent/account_query.go:548-554 | an empty list, which is what an earlier repeat of a key gets, is not complete if the row has neighbours |
| Terminals.All | backend/ent/account_query.go:259-266 | the nodes of the query's rows, each with exactly what the loaders' batches hold for it, at every depth; fails only for invalid fields |
| Terminals.LoadMeans | backend/ent/account_query.go:478-542 | of an executed query: all its nodes carry what it asks for if and only if no window of a sub-query cuts and all its rows are served |
| Terminals.LimitedRows | backend/ent/account_query.go:733-735 | a positive limit keeps a prefix of the rows that the query has without it |
| Terminals.First | backend/ent/account_query.go:160-169 | the first of the rows without the limit, NotFound exactly if there is none |
| Terminals.Only | backend/ent/account_query.go:206-219 | against the rows without the limit: the row exactly if there is one, NotFound exactly if none, NotSingular exactly if two or more |
| Rows.RowsBeforeWindow | backend/ent/account_query.go:709-747 | before its window an executed query that is distinct, or leaves that open and is a traversal, reads each row that is reached and passes the predicates exactly once; any other reads it as often as it is reached; the rows ascend and descend as the order terms say |
| Rows.SortedIs | backend/ent/account_query.go:739-745 | sorted rows are in lexicographic order of the terms: each ascends or descends wherever the earlier ones tie |
| Rows.AllHoldIs | backend/ent/account_query.go:726-732 | a row is selected exactly if every test is true of it, its key is in every list of keys, and its foreign key in every list for that column |
| Rows.RowsInWindow | backend/ent/account_query.go:733-738 | All returns the rows after the offset, no more than the limit unless that is zero |
| Rows.DistinctCount | backend/ent/account_query.go:206-219 | a distinct query has as many rows as different keys are reached, so Only returns a row that a traversal reaches twice |
| Example.TraversalOnce | backend/ent/account_query.go:712-716 | a traversal that reaches one row twice and says nothing about repeats has that row once |
| NodeData.LoadedData | backend/ent/account_query.go:478-512 | every node of an executed query, at every depth, has the key of a stored row, its values in all columns if nothing is selected and else in the selected ones, no others, and its foreign keys exactly if they are read |
| NodeData.CreateThenAll | backend/ent/account_create.go:408-424 | after a successful creation, a query of everything returns a node with the new key and exactly the data that was set or set by default |
| IDQueries.IDs | backend/ent/account_query.go:278-287 | succeeds exactly when no fields were selected before, and returns the keys of the rows of the second compilation |
| IDQueries.DistinctOnKey | backend/ent/account_query.go:712-716 | removing duplicates on all columns is removing duplicates of the key |
| IDQueries.SameBeforeWindow | backend/ent/account_query.go:709-779 | up to offset and limit the two compilations read the same rows in the same order, traversals with duplicates included |
| IDQueries.IDsAreKeysOfAll | backend/ent/account_query.go:278-287 | IDs equals the ids of All if and only if the two compilations window alike |
| Rows.IDsInWindow | backend/ent/account_query.go:749-779 | IDs returns the keys of the rows that All reads before its window, after the offset; a limit of zero leaves none, an offset without a limit at most 2147483647 |
| IDQueries.FirstID | backend/ent/account_query.go:182-192 | the id of the first row without the limit, NotFound exactly if there is none |
| IDQueries.Exist | backend/ent/account_query.go:317-327 | true exactly if the query without its limit has a row |
| Windows.WindowCutsTheEdge | backend/ent/account_query.go:733-738 | after a load with a limit or offset on the builder of an edge (any kind), every node has its edge, complete to every depth, if and only if the window keeps the whole batch of all owners, no window below cuts, and every row is served |
| Windows.WindowsDecide | backend/ent/account_query.go:733-738 | all nodes of a loaded query carry what it asks for if and only if every window at every depth keeps its whole batch and every row is served |
| Windows.NoWindowUncut | backend/ent/account_query.go:733-738 | without a limit and an offset no batch is cut |
| Views.JoinViewsAgree | backend/ent/group_query.go:593-599 | loaded from its two sides by any two loads whose batches are not cut, one join table gives the same links on the nodes, up to what the two sub-queries filter out |
| Views.KeyViewsAgree | backend/ent/department_query.go:605-635 | the same for the two ends of one foreign key |
| Views.UniqueAccessor | backend/ent/account.go:85-92 | on any loaded node, repeated keys included: NotLoaded exactly if the edge was not requested, a returned node is always the row of the key, and if no window cuts the batch, NotFound exactly if the key is nil or names no selected row |
| Views.ListAccessor | backend/ent/account.go:76-83 | on any loaded node, repeated keys included and whatever its other edges are like: NotLoaded exactly if the edge was not requested; if no window cuts the batch of this edge, exactly the joined neighbours, once each, if and only if the node's row is served, and otherwise none |
| Views.LoadConserves | backend/ent/account_query.go:686-697 | after any O2M load, repeated owners included, the lists of the nodes one after the other are exactly the neighbours that were queried for, each of them once |
| Views.OneParent | backend/ent/account_query.go:686-697 | every neighbour of an O2M load is in the list of exactly one node |
| Views.OneObject | backend/ent/account_query.go:580-602 | a neighbour that several owners have is one object in all their lists |
| Views.FirstOccurrenceOrder | backend/ent/account_query.go:580-602 | an M2M list, window or not, holds exactly the ids that the stream pairs with the owner, in the order of their first occurrence in the whole stream |
| Edges.AccountGroups | backend/ent/group_query.go:581-640 | for nodes of two executed queries: the group is in the account's groups if and only if the account is in the group's accounts |
| Edges.DepartmentAPIKeys | backend/ent/apikey_query.go:681-712 | for nodes of two executed queries: the API key is in the department's keys if and only if the department is the key's department |
| Edges.AccountEvents | backend/ent/accountevent_query.go:411-442 | for nodes of two executed queries: the event is in the account's events if and only if the account is the event's account |
| Edges.AskedHolds | backend/ent/account_query.go:544-698 | an edge of an executed query that is asked for without a filter or a cutting window holds, on every served node, exactly the stored rows that are linked to the node's row: by the pair of the join table in the column order of the edge, or by the foreign key |
| Edges.EntitiesOK | backend/ent/migrate/schema.go:36-905 | all tables but the join tables, with their M2M, O2M and M2O edges, make up a schema that meets the assumptions of eager loading, whatever is stored |
| Edges.EmptyDatabase | backend/ent/migrate/schema.go:36-69 | the empty database of these entities meets them |
| Example.ZeroLimitHidesIDs | backend/ent/account_query.go:775-777 | a query with limit zero for which IDs is empty and All is not |
| Example.LimitIsNotPerOwner | backend/ent/account_query.go:678-682 | with limit one on the sub-query, the only loaded parent, which has two children, is left with one at most |
| Example.EarlierRepeatMisses | backend/ent/account_query.go:548-551 | a traversal with a repeated row whose first node stays without its neighbours |
| Hooks.WithHooks | backend/ent/ent.go:530-561 | a nil hook anywhere is an error and nothing runs; otherwise the result is that of hooks[0](hooks[1](...)) around the operation |
| Hooks.WithInterceptors | backend/ent/ent.go:596-609 | the same chain around a query, without the nil check |
| Hooks.LaterHooksAreInner | backend/ent/ent.go:543-548 | hooks added later run inside those added before |
| Hooks.OneCallEach | backend/ent/ent.go:543-549 | when every hook calls its successor once, and may remember on its way out what it saw on its way in: all ways in, outermost first, the operation once, all ways out, innermost first |
| Hooks.ExecutedOnce | backend/ent/ent.go:536-549 | the operation then runs exactly once, on the mutation that the innermost hook handed on, and not at all if that is of another type |
| Hooks.BulkChecksTheOldMutation | backend/ent/account_create.go:577-586 | a single create and a bulk create treat a handed-on mutation alike if and only if it is the builder's own or both pass the checks |
| BulkCreate.AccountCreateBulk.Save | backend/ent/account_create.go:567-623 | all defaults are set first; the run follows the script of the hooks; if every hook calls its successor once, with the mutation it is given, and they are faithful, saving is all or nothing (the error of the first failing check and no insert, or one insert of all specs in order, after which either no mutation is marked or every builder is saved with its id), and with separate mutations that are not done only if they are faithful |
| BulkCreate.AccountCreateBulk.Invoke | backend/ent/account_create.go:575-617 | mutator i, for hooks that call any number of times and return any error: the events, the error, exactly which mutations are done, and if the last way in went through, that the builders are saved with the ids of the last insert |
| BulkCreate.AccountCreateBulk.BatchCreate | backend/ent/account_create.go:591-599 | the batch insert gets the contents of all builders, in their order |
| BulkCreate.AccountCreateBulk.Finish | backend/ent/account_create.go:600-608 | the id is read back, the mutation points to its node and is done, and builders saved before stay saved, even if they share the mutation |
| Chains.ExitsMirrorEnters | backend/ent/account_create.go:578-618 | with one call each, the enter trace is builder 0's hooks outermost first, then builder 1's, up to the first failing check or the insert, and the exit trace is its exact reverse, whatever errors the hooks return |
| Chains.ThereAndBack | backend/ent/account_create.go:578-618 | the whole course of hooks that call at most once, whatever they return: the way in up to a dropped call, a failing check or the insert, its exact reverse, and exactly which builders are through |
| Chains.RightIfFaithful | backend/ent/account_create.go:587-608 | with one call each, exactly the right builders are through and the error that was met is returned if and only if the hooks are faithful |
| Chains.HonestIsFaithful | backend/ent/account_create.go:611-615 | hooks that pass on what their call returned are faithful |
| Chains.InsertsAtMostOnce | backend/ent/account_create.go:580-599 | with at most one call each, one insert of all specs if no hook on the way in drops its call and no check fails, and otherwise none |
| Chains.InsertsMultiply | backend/ent/account_create.go:587-599 | when nothing fails, and no hook makes an error of a success, the batch insert runs as often as the numbers of calls of all hooks multiply |
| Chains.CleanInserts | backend/ent/account_create.go:587-599 | in every run in which no error arises the number of inserts is that product |
| Chains.CleanDone | backend/ent/account_create.go:600-608 | in such a run exactly the builders are through that the call gets to |
| Chains.BarrenMarksNothing | backend/ent/account_create.go:595-608 | if all hooks call, any number of times, and return what their last call returned, no builder is through as long as no insert succeeds |
| Chains.OneInsertOrNone | backend/ent/account_create.go:611-615 | so it runs once if and only if every hook calls once, and never if and only if some hook drops the call |
| BulkCreate.AccountCreateBulk.DroppedCallMarksUnsaved | backend/ent/account_create.go:600-608 | when no error arises, for any number of calls: exactly the mutations are done of builders that the call got to, shared ones included, and some mutation is done without an insert if and only if some hook drops its call while the first builder's hooks all call |
| BulkCreate.AccountCreateBulk.MarkedUnsaved | backend/ent/account_create.go:600-608 | with at most one call each, whatever the hooks return: exactly the mutations are done of builders that the way in gets past and to which no error comes back, and some mutation is done without an insert if and only if the way in ends before the insert and there is such a builder |
| BulkCreate.FirstMarkedOnly | backend/ent/account_create.go:600-608 | two builders, the second with a hook that drops the call: no error, no insert, and the first mutation is done |
| BulkCreate.SavedWithError | backend/ent/account_create.go:600-618 | one builder with a hook that calls once, passes errors on and reports one of its own after a success: the row is inserted, the mutation is done, and Save returns the error |
| BulkRuns.SaveIsCreateBulk | backend/ent/account_create.go:567-623 | whenever saving is all or nothing, it does what the bulk create step of the state machine does: the same error, or nodes with the keys and contents of the rows |
| Updates.EdgeMutation.AddIDs | backend/ent/mutation.go:2553-2560 | the ids join the pending additions |
| Updates.EdgeMutation.RemoveIDs | backend/ent/mutation.go:2573-2581 | the ids leave the pending additions and join the removals |
| Updates.AppendEdge | backend/ent/account_update.go:526-570 | for every set of old neighbours, the specs of one edge have the effect (cleared ? none : old without removed) plus added, and touch no other edge |
| Updates.EdgesToUpdate | backend/ent/account_update.go:525-689 | the same for all edges of an account together |
| Updates.EdgesToUpdateOne | backend/ent/account_update.go:1231-1394 | the same for UpdateOne, block by block |
| Updates.UpdatesAgree | backend/ent/account_update.go:1231-1394 | Update and UpdateOne do the same to every edge, whatever the neighbours were |
| Updates.SilentKeeps | backend/ent/account_update.go:526-570 | edges without specs keep their neighbours |
| Updates.RunsCompose | backend/ent/account_update.go:526-570 | a run of updates has the effect of one update, whatever the old neighbours, for list edges and for unique ones |
| Updates.MeansItsCalls | backend/ent/mutation.go:2553-2581 | a mutation has the effect of its Add, Remove and Clear calls in turn if and only if no pending addition was cleared for good |
| Updates.ClearDoesNotTakeBack | backend/ent/mutation.go:2563-2565 | adding and then clearing keeps the addition |
| Updates.Make | backend/ent/mutation.go:2553-2604 | the Add, Remove and Clear calls, made on a mutation, leave it holding what `MeansItsCalls` is about |
| Updates.MakeUnique | backend/ent/mutation.go:2607-2643 | the same for the Set and Clear calls of a unique edge and `UniqueMeansItsCalls` |
| Updates.UniqueMeansItsCalls | backend/ent/mutation.go:2607-2614 | for a unique edge: if and only if the last call sets it or no call does |
| Runs.Check | backend/ent/apikey_create.go:363-426 | an error comes back if and only if it is that of a rule that fails after rules that all hold: the field that is missing or invalid, the edge that a creation lacks or that an update clears; and none exactly if no rule fails |
| Runs.Client.CreateBulk | backend/ent/apikey_create.go:606-662 | every builder is checked, in order, before anything is inserted |
| Effects.CreateEffect | backend/ent/apikey_create.go:295-444 | a successful create: one row more, with a key no row had; every cell is what was set, else the default, else NULL; other tables change in the foreign keys of its O2M edges only |
| Effects.CreateLinks | backend/ent/account_create.go:524-555 | the new row gets exactly the rows that are added to it, and none is taken from another owner |
| Effects.UpdateEffect | backend/ent/apikey_update.go:482-744 | a successful update: matching rows keep their key and change in exactly the cells that the mutation is about, where an addition gives the sum with the value that is set, or else the old value, or else zero; all other rows and tables stay, except for the foreign keys of its O2M edges |
| InTurn.AdditionsInTurn | backend/ent/apikey_update.go:540-541 | two additions in turn have the effect of adding their sum, for integers and reals, in columns that hold a number or NULL |
| Effects.O2MMeans | backend/ent/account_update.go:600-689 | the neighbours along an O2M edge of every updated row are changed as the pending change means, those of other owners are not changed |
| Effects.DeleteEffect | backend/ent/migrate/schema.go:36-69 | a successful deletion: in its table exactly the matching rows are gone; elsewhere a row is gone if and only if a cascading reference names a deleted row, of the others exactly the references to deleted rows are NULL, and tables without such references are unchanged |
| Effects.NothingRefersToDeleted | backend/ent/migrate/schema.go:36-69 | after it no reference, of any kind, names a deleted row |
| Outcomes.CreateFails | backend/ent/accountevent_create.go:219-253 | a creation whose first failing rule, defaults counted, fails with an error: that error comes back and nothing changes |
| Outcomes.UpdateFails | backend/ent/apikey_update.go:450-480 | the same for Update and UpdateOne |
| Outcomes.CreateBulkFails | backend/ent/apikey_create.go:606-662 | a bulk create reports the first failing rule of the first builder that has one, and stores nothing |
| Outcomes.CreateSucceeds | backend/ent/apikey_create.go:428-444 | on a sound database a creation succeeds if and only if no rule fails, its unique edges lead to stored rows, the rows it adds are stored and have no owner, and the database has no reason of its own |
| Outcomes.UpdateSucceeds | backend/ent/apikey_update.go:1212-1219 | an Update or UpdateOne succeeds if and only if no rule fails, UpdateOne finds its row, and, if a row matches, its unique edges lead to stored rows, no row loses an edge that it requires, and rows are added to one row only and not taken from another owner |
| Outcomes.UpdateOneMisses | backend/ent/apikey_update.go:1212-1219 | without an id, and without a row of that id that matches, UpdateOne says so and changes nothing |
| Outcomes.DeleteSucceeds | backend/ent/migrate/schema.go:36-69 | a deletion succeeds if and only if no row that stays refers to a deleted row by a foreign key without an action |
| Outcomes.DatabaseErrors | backend/ent/apikey_create.go:434-440 | past the checks a reason of the database's own comes back as it is, and any other error is a violated constraint or, for additions to several rows, says so |
| Soundness.CreatedSound | backend/ent/apikey_create.go:363-426 | a row that passed the create checks has its required edges and valid fields |
| Soundness.PatchedSound | backend/ent/apikey_update.go:450-480 | an update that passed the checks keeps the required edges of a row, and its fields valid if and only if what it adds to validated fields keeps them valid |
| Soundness.ChecksSuffice | backend/ent/apikey_update.go:450-480 | the checks alone keep NULL out of the NOT NULL columns of the rows that a create or update writes itself |
| Soundness.ClearRestsOnNotNull | backend/ent/account_update.go:363-373 | clearing O2M edges of a sound database leaves a row without a required edge if and only if a row with a required edge refers to an owner and is cleared or removed, and in exactly these cases the Clear list is refused |
| Soundness.RequiredClearRefused | backend/ent/user_update.go:545-549 | an Update or UpdateOne that would do that is an error and changes nothing |
| Soundness.StepKeeps | backend/ent/apikey_update.go:1180-1210 | an operation that fails changes nothing, and one that succeeds keeps the whole database sound if and only if its additions stay valid, O2M changes included |
| Soundness.RunsKeep | backend/ent/accountevent_update.go:221-231 | over any run of operations that add nothing to validated numbers the whole database stays sound, deletions of parents and O2M changes included |
| Effects.UpdateOneTouchesOne | backend/ent/apikey_update.go:1212-1219 | a successful UpdateOne changes exactly the row with the given key, and of other tables the foreign keys of its O2M edges only |
| InTurn.BulkIsCreatesInTurn | backend/ent/apikey_create.go:606-662 | a successful bulk create has the effect of creating the builders one after the other, O2M edges included |
| Soundness.DeletedSound | backend/ent/migrate/schema.go:36-69 | deletions, with their SET NULL and CASCADE actions, keep rows sound and keys unique |
| Entities.CreateSpec | backend/ent/account_create.go:426-523 | the node and the row that a creation makes of the mutation's fields and unique edges |
| Entities.WriteThenRead | backend/ent/account_create.go:426-523 | reading the inserted row with all columns and foreign keys gives the created node, field by field, JSON included |
| Entities.CreateThenRead | backend/ent/account_create.go:303-348 | the same from the defaults to the second read, as a method |
| Entities.CreationIsPatch | backend/ent/account_create.go:426-523 | the inserted row is the one that the state machine stores for the same content |
| Entities.AccountOK | backend/ent/account.go:113-260 | the two type switches of an account agree on every column name |
| Entities.AccountKnows | backend/ent/account.go:113-260 | the two switches of an account know exactly its columns and its foreign key |
| Entities.APIKeyOK | backend/ent/apikey.go:136-296 | the two type switches of an API key agree on every column name, the four foreign keys included |
| Entities.APIKeyKnows | backend/ent/apikey.go:136-296 | the two switches of an API key know exactly its columns and foreign keys |
| Repository.RepositoryOK | backend/ent/migrate/schema.go:36-905 | the foreign keys, NOT NULL columns and required edges of all tables but the join tables, and the checks and defaults of accounts, API keys and account events, meet what the state machine assumes |
| Deletions.DeletionSucceeds | backend/ent/migrate/schema.go:36-905 | a deletion is refused exactly if an API key, department, member, identity or subscription names a deleted user, a subscription names a deleted group, or the database has a reason of its own |
| Deletions.DeletionKeeps | backend/ent/migrate/schema.go:36-905 | a successful deletion leaves every row of every other table, apart from the events of deleted accounts, with its key and all its cells but those that named a deleted row, which are NULL |
| Deletions.DeletionTakesEvents | backend/ent/migrate/schema.go:150-156 | a deletion of accounts takes exactly their events along and leaves the others as they are |
| Deletions.NullableIs | backend/ent/migrate/schema.go:36-905 | a foreign key is set to NULL on deletion exactly if its column may be NULL |
| ForeignKeys.EdgesAreKeys | backend/ent/migrate/schema.go:36-905 | every O2M and M2O edge of every entity is a foreign key between the same tables |
| ForeignKeys.KeysAreEdges | backend/ent/migrate/schema.go:36-905 | every foreign key is an M2O edge of its table, and an O2M edge of its target but for a department's manager and a member's account |
| ForeignKeys.SameKeys | backend/ent/account.go:113-136 | the builders write and the queries read the same foreign keys |
| Checks.AccountCreates | backend/ent/account_create.go:351-406 | which contents of an account's creation pass its checks: the required fields without a default are set, and what is set is valid |
| Checks.AccountUpdates | backend/ent/account_update.go:427-449 | which updates of accounts pass: what is set is valid |
| Checks.APIKeyCreates | backend/ent/apikey_create.go:363-426 | the same for the creation of API keys, their user included |
| Checks.APIKeyUpdates | backend/ent/apikey_update.go:450-480 | the same for updates of API keys: the user may not just be cleared |
| Checks.EventCreates | backend/ent/accountevent_create.go:219-253 | the same for the creation of account events |
| Checks.EventUpdates | backend/ent/accountevent_update.go:221-231 | the same for updates of account events |
| Checks.EmptyEvent | backend/ent/accountevent_create.go:219-253 | of an event of which nothing is set the missing type is reported |
| Checks.SmallestAccount | backend/ent/account_create.go:303-348 | a name and a platform suffice, and the cells that are stored then |
| Checks.SmallestAPIKey | backend/ent/apikey_create.go:323-361 | a name, a hash and a stored user suffice, and the cells that are stored then |
| Checks.SmallestEvent | backend/ent/accountevent_create.go:187-216 | a type and a stored account suffice, and the cells that are stored then |
| Checks.SmallestAccountFits | backend/ent/account_create.go:303-348 | the cells of the smallest account have the types that its node scans |
| Checks.SmallestAPIKeyFits | backend/ent/apikey_create.go:323-361 | the same for API keys |
| Checks.UpdatesAreStamped | backend/ent/apikey_update.go:442-447 | every update of an account or API key stores its time unless one is set |
| Repository.RepositoryRuns | backend/ent/accountevent_update.go:532-542 | after any run from the empty database without additions to validated numbers, every required edge of every row leads to a stored row, no reference dangles, and every validated field of accounts, API keys and account events is valid; the runs include every O2M change of all these tables |
| Repository.ClearEventsRefused | backend/ent/account_update.go:363-373 | an account with events: ClearEvents passes the checks, the Clear list alone would leave events without their account, and the update is refused |
| Repository.ClearAPIKeysRefused | backend/ent/user_update.go:545-549 | the same for a user with API keys |
| Repository.ClearRequiredRefused | backend/ent/usersubscription_create.go:178-183 | at every NOT NULL foreign key: clearing the other end would leave a row without a required edge, and is refused |
| Repository.AddedPriorityIsNotChecked | backend/ent/mutation.go:2175-2181 | adding 950 to a priority of 50 passes the checks and stores 1000 |
| Repository.AddedQuota | backend/ent/apikey_update.go:540-541 | adding 1.5 to a used quota of 2.0 stores 3.5 |

## Left out

- SQL text, drivers, contexts and transactions: a statement stands for the rows it returns, and a failing database is an
  arbitrary refusal.
- Interceptors and traversers inside eager loading: the chain is modelled by itself, in `Hooks`; the loaders run without
  one.
- Running the same eager-loading query twice: each load adds a predicate to the builder of its edge, so the model keeps
  to first executions.
- Negative limits and offsets: the model's limits are natural numbers.
- The order among equally sorted rows is any that the database chooses; two runs of one statement choose alike.
- SameBeforeWindow: the row order of a query is taken to depend on its matching rows and its order, not on the selected
  columns.
- IDsAreKeysOfAll: that an offset without a limit leaves `All` uncapped, and that a limit of zero is no limit for it, is
  the model's reading of the graph library, which is not part of this model.
- IDs: the rule that a slice of integers is scanned from a single column is the model's reading of the SQL library, which
  is not part of this model.
- Query.Clone: the interceptors and the operation name of a builder are not modelled, and the shared path closure is a
  value.
- Query.PrepareQuery: a traversal path that fails, a nil interceptor and the error of a traverser are not modelled.
- CloneShowsTheSame: assumes that the flags are set only on builders of O2M edges, which is where the loaders set them.
- WindowCutsTheEdge: for an M2M edge it assumes that the join table holds no pair twice, which its primary key guarantees;
  the loads and `TreeMeans` are proved for repeated pairs as well.
- Empty and nil slices are not told apart.
- WithInterceptors: a nil interceptor is not modelled; the original rejects it earlier, in prepareQuery.
- Hooks that act while the chain is being built, before the operation starts.
- AccountCreateBulk.Save: a hook decides by the number of its calls and the result of the last one, alike each time it is
  entered, makes a bounded number of calls, and hands on the builder's own mutation. A nil hook, which makes the original
  panic, is left out. What a mutation that is handed on changes is in `BulkChecksTheOldMutation`.
- AccountCreateBulk.Save: a clock default is read once for all builders.
- O2MMeans: how the SQL library carries out the O2M part of the Clear and Add lists is the model's reading of that library,
  which is not part of this model: the clearing statements come first, each statement is checked by the database, an
  addition takes only rows that have no owner and is an error if one of them has, or if several rows are updated.
- Join tables are not in the state machine of `Runs`, and the one O2O edge, a member's account, is there as a foreign key
  without its uniqueness; no row requires them.
- EntitiesOK: a member's account, the one O2O edge, is in this schema from the user's side only.
- Check: an error about an edge names its foreign-key column, where the original names the edge.
- UpdateEffect: a column that is both set and added to gets the sum, and one that is both cleared and set gets the value;
  the original leaves both to the SQL library, so these clauses are the model's reading of it. Appending to JSON columns
  and the field selection of UpdateOne are left out.
- DeleteEffect: references are followed one level deep, which is all that the foreign keys of these tables need.
- RepositoryRuns: the field checks of the other entities are not modelled, only their foreign keys and required edges.
- Integer overflow in the database and rounding of floating-point columns.
- Counting, grouping and aggregate scanning, OnlyID, and the panicking variants: nothing new to prove.
- The remaining entities: the same template.
