# Verified model of the account data layer and its surrounding gates

This project models four pieces of the gateway and proves what they promise.

**Eager loading of accounts** (`backend/ent/account_query.go`, `accountgroup_query.go`, `account.go`).
A query for accounts may ask for edges: groups, proxy, parent, children and the account-group join
entity, to any depth. The code fetches the root rows, sends one batched query per edge and stitches the
answers in memory. `QueryModel` gives two meanings to a query tree on one snapshot of the tables: `Batch`,
what the loaders' batches produce, and `Naive`, the join of each row on its own. `EagerLoading` and
`Stitching` are the loaders as methods over heap nodes and mutable query objects; they are proved to build
nodes that denote `Batch`, and `JoinTheorem.BatchIsNaive` proves `Batch` equal to `Naive`. `EdgeLaws` and
`EagerResults` state what follows for callers: two views of one relation agree, lists partition their
rows, a narrowed tree can be run again, and exactly when a limit on the children query is harmless.
`Selections`, `QueryAnswers` and `ResultNodes` say which rows and columns the returned nodes show, in which
order, in terms of table positions and the clauses of the queries.

**Creating accounts** (`backend/ent/account_create.go`, `account.go`).
`AccountBuilder` has the defaults, the checks and the insert specification of one account, `AccountChecks` states
the defaults and checks column by column as the schema does, `AccountCodec`
the scan destinations and the row decoding, with the round trip between them. `BulkRun` is one run of the
bulk mutator chain as a function: hooks are decision trees that may call the mutator they wrap any number
of times, answer early and hide or invent errors, and the database may accept or refuse each batch.
`BulkCreate` is the chain itself, recursive methods over the shared arrays, proved to refine that
function; `BulkLaws` holds the safety properties over all runs, sorted by how well the hooks behave, and
`BulkHooks` and `BulkEndings` say exactly which hooks keep the promises of a save for every database.
`SavedAccounts` connects a save with the rows a later query reads.

**The audit exception gate** (`tools/check_pnpm_audit_exceptions.py`).
`AuditText` and `ExceptionFile` are the hand-written parser with its grammar and a printer, `ExceptionText`
the file's text and its line breaks, `AuditReport` and `ReportGenerator` the extraction of findings from both
report formats, `ReportReading` what it yields said of the JSON value alone, `AuditGate` the index, the matching
loop, the exit code and the verdict on records and findings, `GateLaws` the laws of the verdict.

**Branding of the page title** (`frontend/vite.config.ts`).
`Branding` has the HTML escaping, the search for the title and JavaScript's replacement patterns.

Choices that shape the model:

- A table is a sequence of rows, a predicate a test on a row, an order a rank with ties in table order.
  `Database.Keyed` says that primary keys are unique; foreign keys may dangle.
- Loaders call `Where` on the query they are given, so a query tree is an object graph that changes:
  `SqlAll` states the tree it leaves behind as well as the nodes it returns.
- Sets and maps that Go iterates in arbitrary order are iterated in arbitrary order here too.
- A struct field is the content of its column: a plain value, a pointer or nil. JSON encoding, string
  conversion and lower-casing of the two language runtimes, and the meaning of a date string, are parameters.
- `Save` drops the error of `defaults`; so does the model, and `UnwiredIsRejected` shows that `check`
  catches it. The comment on `Save` says that it creates the entities; the code lets a hook report success
  for a refused insert, and the model follows the code.
- `Honest` hooks never answer without error unless their last call to the mutator had none. `HonestExactly`
  shows that this is exactly what one hook needs so that success means saved; `SavedExactly` gives the
  condition for a whole list of builders and hooks. For the suffix of finished builders honesty is more than
  needed: `SuffixExactly` asks only that no builder behind the first is reached with hooks that report
  success when the mutator under them fails every time.

## Model

| member | source | states |
|---|---|---|
| Schema.AccountColumns | backend/ent/account_query.go:858-900 | the selected columns are the identifier, then the other selected fields in order with their repetitions, then each foreign key a requested many-to-one edge reads, and nothing else |
| Schema.AccountGroupColumns | backend/ent/accountgroup_query.go:448-467 | the same for the join entity, which has no identifier of its own |
| Collections.DistinctKeys | backend/ent/account_query.go:688-700 | the identifiers a many-to-one loader sends: each non-nil key of a node once, nothing else |
| Collections.FilterSortBy | backend/ent/account_query.go:720-752 | a stable order commutes with filtering, so a batch restricted to one key is ordered as the query for that key alone |
| Selections.SelectionExactly | backend/ent/account_query.go:883-905 | rows are what a selection yields if and only if they stand at the table positions that satisfy the condition, each once, by rank with ties in table order, cut to the rows after the offset and no more than the limit; there is exactly one such list |
| QueryAnswers.AnsweredExactly | backend/ent/account_query.go:550-581 | the root rows are exactly the answer to the query's conditions, order, offset and limit, the conditions spelled out |
| QueryAnswers.ChildrenAnsweredExactly | backend/ent/account_query.go:765-771 | the rows of the children query are exactly the answer for the accounts that name one of the loaded ones |
| QueryAnswers.LinksAnsweredExactly | backend/ent/account_query.go:828-834 | the same for the account-groups query |
| QueryAnswers.GroupsAnsweredExactly | backend/ent/account_query.go:627-687 | the groups of one account are exactly the answer for the groups some link joins to it, in the order of the groups query |
| QueryAnswers.JoinPositions | backend/ent/account_query.go:638-646 | the join stream has one row per matching pair of a group and a link, by group and then by link |
| QueryAnswers.JoinRowsAnswered | backend/ent/account_query.go:638-658 | the rows the groups loader reads are that join over the groups that meet the conditions, in the order asked for, cut by the groups query's offset and limit |
| QueryAnswers.ShownExactly | backend/ent/account_query.go:858-882 | a node shows of its row the identifier, the foreign keys that were selected or that a requested edge needs, and exactly the other columns selected |
| QueryAnswers.ShownChild | backend/ent/account_query.go:762-764 | a child shows its parent key as well, selected or not |
| QueryAnswers.ShownLink | backend/ent/account_query.go:825-827 | what a join node shows of its row |
| Stitching.GroupByKey | backend/ent/account_query.go:720-733 | the many-to-one index: duplicate-free key list, and for each key the nodes that hold it, in order |
| Stitching.IndexByID | backend/ent/account_query.go:752-761 | the one-to-many index: each identifier leads to the last node that holds it |
| Stitching.StitchParent | backend/ent/account_query.go:741-749 | each neighbour up to the first unexpected one is assigned to exactly the nodes that hold its identifier; an error means such a neighbour exists |
| Stitching.StitchProxy | backend/ent/account_query.go:709-717 | the same for proxies |
| Stitching.StitchLinkAccount | backend/ent/accountgroup_query.go:397-405 | the same for the account of a join node |
| Stitching.StitchLinkGroup | backend/ent/accountgroup_query.go:426-434 | the same for the group of a join node |
| Stitching.StitchChildren | backend/ent/account_query.go:772-782 | each neighbour is appended to exactly the node its foreign key names; an error means a nil or unknown foreign key |
| Stitching.StitchAccountGroups | backend/ent/account_query.go:835-842 | the same for join nodes |
| Stitching.ScanJoin | backend/ent/account_query.go:660-671 | the join stream becomes one node per group in order of first appearance, and for each group the set of accounts joined to it |
| Stitching.GiveGroup | backend/ent/account_query.go:682-684 | whatever order the account set is iterated in, each account in it gains the group once and no other account changes |
| Stitching.StitchGroups | backend/ent/account_query.go:677-685 | all groups are handed out in order; an error means a group that the stream did not hold |
| EagerLoading.LoadGroups | backend/ent/account_query.go:627-687 | never fails; each account ends with the groups joined to it and the query is left rewritten to the join |
| EagerLoading.SpreadGroups | backend/ent/account_query.go:627-687 | for every join stream over the loaded identifiers each account ends with exactly the groups joined to it, each once, in order of first appearance; the unexpected-node error is unreachable |
| EagerLoading.LoadProxy | backend/ent/account_query.go:688-719 | never fails; each account holds the proxy its key names among the rows of the narrowed query, or none |
| EagerLoading.LoadParent | backend/ent/account_query.go:720-751 | never fails; each account holds as parent a node denoting the batch tree its key names, and the sub-query is left narrowed |
| EagerLoading.LoadChildren | backend/ent/account_query.go:752-784 | never fails, whatever fields were selected; each account ends with nodes denoting its batch of children in order |
| EagerLoading.LoadAccountGroups | backend/ent/account_query.go:815-844 | the same for the join nodes of an account |
| EagerLoading.LoadAccount | backend/ent/accountgroup_query.go:379-407 | the second hop: each join node holds the account it names |
| EagerLoading.LoadGroup | backend/ent/accountgroup_query.go:408-436 | the second hop: each join node holds the group it names |
| EagerLoading.SelectedColumns | backend/ent/account_query.go:867-873 | the loop puts the identifier first and skips it among the selected fields, keeping their order |
| EagerLoading.AccountQuery.SpecColumns | backend/ent/account_query.go:866-880 | the columns appended step by step are the column list of the query specification |
| EagerLoading.AccountQuery.AppendField | backend/ent/account_query.go:762-764 | a foreign key is added to a non-empty selection only, once |
| EagerLoading.AccountQuery.QueryNodes | backend/ent/account_query.go:563-580 | one new node without edges per row that answers the query, in the order asked for, with the selected columns and the requested edges marked as loaded |
| EagerLoading.AccountQuery.SqlAll | backend/ent/account_query.go:550-625 | eager loading never fails, returns new nodes for the rows that answer the query, in the order asked for, which denote the batch trees of the query tree to its full depth, and leaves the query tree narrowed as stated |
| EagerLoading.AccountGroupQuery.SqlAll | backend/ent/accountgroup_query.go:334-377 | the same for the join entity |
| EagerLoading.DecodedParts | backend/ent/account_query.go:858-882 | identifiers are always read, and so is every foreign key a requested edge needs, whatever fields were selected |
| EagerLoading.LinkKeysRead | backend/ent/accountgroup_query.go:455-467 | the same for the two foreign keys of the join entity |
| Graph.DenotesUnique | backend/ent/account.go:87-104 | a node graph denotes at most one tree, so the returned objects determine the result |
| JoinTheorem.GroupNodesInFirstOrder | backend/ent/account_query.go:660-686 | groups come in order of their first row in the stream, with the data of that row |
| JoinTheorem.GroupNodesCover | backend/ent/account_query.go:660-686 | no group of the stream is lost |
| JoinTheorem.GroupNodesUnique | backend/ent/account_query.go:663-670 | no group of the stream becomes two nodes |
| JoinTheorem.GroupsOfExactly | backend/ent/account_query.go:660-686 | the groups read off a stream for an account are exactly those it joins to the account, each once |
| JoinTheorem.GroupNodesOfJoin | backend/ent/account_query.go:638-646 | the group nodes of a join are the selected groups with a link to some loaded account, in selection order |
| JoinTheorem.GroupsOfJoin | backend/ent/account_query.go:627-687 | the groups one account receives from the batch are those of a join for that account alone |
| JoinTheorem.GroupsEdgeIsNaive | backend/ent/account_query.go:627-687 | batched many-to-many loading is the per-account join |
| JoinTheorem.ProxyEdgeIsNaive | backend/ent/account_query.go:688-719 | batched many-to-one loading is the lookup of each node's own key, nodes with equal identifiers allowed |
| JoinTheorem.AccountEdgeIsNaive | backend/ent/account_query.go:720-751 | the same for parents, with everything loaded below them |
| JoinTheorem.ChildrenEdgeIsNaive | backend/ent/account_query.go:752-784 | batched one-to-many loading is the query for each account's own children, with everything loaded below them |
| JoinTheorem.AccountGroupsEdgeIsNaive | backend/ent/account_query.go:815-844 | the same for join nodes |
| JoinTheorem.LinkBatchIsNaive | backend/ent/accountgroup_query.go:334-436 | the whole second hop is the per-row join |
| JoinTheorem.BatchIsNaive | backend/ent/account_query.go:550-784 | for every query tree without limit or offset below the root, the batches build exactly the trees of the recursive per-row join |
| EdgeLaws.EagerIsNaive | backend/ent/account_query.go:550-625 | for a whole query, whose own limit and offset are free, the result is the per-row join of its root rows |
| EdgeLaws.RerunAgrees | backend/ent/account_query.go:688-784 | on the same rows a tree without a groups edge, narrowed in place by the first run, builds the same trees again, limits included |
| EdgeLaws.NarrowedRunsAgain | backend/ent/account_query.go:688-784 | such a narrowed tree meets the conditions for another run |
| EdgeLaws.ParentLost | backend/ent/account_query.go:736-740 | on other rows a narrowed parent query loads a parent if and only if the fresh query does and the first run had its key |
| EdgeLaws.ChildLost | backend/ent/account_query.go:765-771 | on other rows a narrowed children query loads a child if and only if the fresh query does and the first run had the account |
| EagerResults.ProxyLost | backend/ent/account_query.go:704-708 | on other rows a narrowed proxy query loads a proxy if and only if the fresh query does and the first run had its key |
| EdgeLaws.ChildCut | backend/ent/account_query.go:752-784 | under a limit one account's children agree with its own limited query exactly when cutting the batch and filtering commute for it |
| EdgeLaws.ChildLimitExact | backend/ent/account_query.go:752-784 | a limit on the children query agrees with the per-row join for all accounts if and only if nothing is cut or one account has all the children |
| EdgeLaws.LinkCut | backend/ent/account_query.go:815-844 | under a limit one account's join nodes agree with its own limited query exactly when cutting the batch and filtering commute for it |
| EdgeLaws.LinkLimitExact | backend/ent/account_query.go:815-844 | a limit on the account-groups query agrees with the per-row join for all accounts if and only if nothing is cut or one account has all the join rows |
| EdgeLaws.ParentCut | backend/ent/account_query.go:720-751 | under a limit a key finds what its own limited lookup finds exactly when its row is not cut |
| EdgeLaws.ParentLimitExact | backend/ent/account_query.go:720-751 | a limit on a many-to-one query of accounts agrees with the lookup of each key if and only if it is zero or cuts no row asked for |
| EdgeLaws.ChildLoaded | backend/ent/account_query.go:752-784 | b is loaded among the children of a if and only if b names a and passes the children query |
| EdgeLaws.ParentLoaded | backend/ent/account_query.go:720-751 | a is loaded as the parent of b if and only if b names a and a passes the parent query |
| EdgeLaws.ParentsMirrorChildren | backend/ent/account_query.go:720-784 | among loaded accounts b is one of a's children if and only if b's parent is a |
| EdgeLaws.GroupLoaded | backend/ent/account_query.go:627-687 | a group is loaded for an account if and only if it passes the query and a link joins them |
| EdgeLaws.GroupByTwoHops | backend/ent/accountgroup_query.go:408-436 | a group is reached through the join entity if and only if a link joins it to the account and it passes the query |
| EdgeLaws.GroupsTwoWays | backend/ent/account_query.go:627-687 | the direct groups edge and the two hops through the join entity find the same groups |
| EdgeLaws.PicksPartition | backend/ent/account_query.go:772-782 | filing neighbours by foreign key loses and duplicates none |
| EdgeLaws.ChildrenPartition | backend/ent/account_query.go:752-784 | the lengths of the children lists add up to the number of neighbours fetched |
| EagerResults.All | backend/ent/account_query.go:307-314 | running a query tree returns one node per row that answers the query, in the order asked for and with the columns selected; the object graph denotes the batch trees, and the per-row join when no limit or offset stands below the root |
| ResultNodes.ChildrenListed | backend/ent/account_query.go:752-784 | at any depth, the children of a node are the accounts that name it and meet the conditions of the children query, in its order and with its columns, each loaded in the same way |
| ResultNodes.BatchChildrenListed | backend/ent/account_query.go:752-784 | with any limit and offset on the children query, one answer is fetched for all accounts together and each account's children are its own in it, in order |
| ResultNodes.LinksListed | backend/ent/account_query.go:815-844 | the same as for children for the join nodes of a node |
| ResultNodes.GroupsListed | backend/ent/account_query.go:627-687 | the groups of a node are those linked to it that meet the conditions, in the order of the groups query |
| ResultNodes.ParentListed | backend/ent/account_query.go:720-751 | the parent of a node is the account its key names if that meets the conditions, with everything loaded below it, and else null |
| ResultNodes.ProxyListed | backend/ent/account_query.go:688-719 | the proxy of a node is the one its key names if that meets the conditions, and else null |
| ResultNodes.LinkAccountListed | backend/ent/accountgroup_query.go:379-407 | the account of a join node is the one it names if that meets the conditions, with everything loaded below it |
| ResultNodes.LinkGroupListed | backend/ent/accountgroup_query.go:408-436 | the group of a join node is the one it names if that meets the conditions |
| EdgeLaws.ProxyLoaded | backend/ent/account_query.go:688-719 | the proxy found for a key is the one row with that identifier that passes the query, if there is one |
| EagerResults.ProxyOrErrIsLeftJoin | backend/ent/account.go:118-127 | the accessor reports NotLoaded exactly if the edge was not requested and NotFound exactly if no proxy that passes the query has the key, else the proxy row the key names, which passes the query |
| EagerResults.ParentOrErrIsLeftJoin | backend/ent/account.go:129-138 | the same for the parent, whose node carries the selected columns of the account the key names |
| EagerResults.ListsAreJoins | backend/ent/account.go:109-165 | the list accessors report NotLoaded exactly if the edge was not requested, else the per-row join |
| AccountBuilder.FillIn | backend/ent/account_create.go:527-585 | defaults never change what is set, add only the declared defaults, and reach every column exactly if none they need is unwired |
| AccountBuilder.WiredIsComplete | backend/ent/account_create.go:527-585 | the default functions needed are wired if and only if defaults fills every column it provides |
| AccountBuilder.FirstRejected | backend/ent/account_create.go:588-662 | the check reports the first missing or invalid column in its order, and passes only if there is none |
| AccountBuilder.CheckAfterDefaults | backend/ent/account_create.go:527-662 | after defaults the check passes if and only if the caller set name, platform and type, everything set passes its validator and the needed defaults are wired |
| AccountChecks.CheckExactly | backend/ent/account_create.go:588-662 | the check passes if and only if every mandatory column is set, the name has 1 to 100 characters, the platform 1 to 50, the type 1 to 20, the status and a set session window status at most 20 and the quota dimension is `global` or `spark`; else it reports the first column that fails, in the order listed |
| AccountChecks.DefaultsExactly | backend/ent/account_create.go:527-585 | with the default functions wired, and only then, defaults leaves what was set, gives each omitted column its declared value (concurrency 3, priority 50, rate multiplier 1, status `active`, pausing and scheduling on, quota dimension `global`, times and documents from their functions) and sets nothing else |
| AccountChecks.CheckAfterDefaultsExactly | backend/ent/account_create.go:527-662 | after defaults the check passes if and only if name, platform and type are set within those limits, whatever else was set is within them and the default functions needed are wired |
| AccountBuilder.DefaultsAreValid | backend/ent/schema/account.go:44-202 | every declared default passes its own column's validator and belongs to a column that must hold a value |
| AccountBuilder.UnwiredIsRejected | backend/ent/account_create.go:2105-2113 | dropping the error of defaults is harmless: the check fails on a column left unset |
| AccountBuilder.DefaultsIdempotent | backend/ent/account_create.go:527-585 | running defaults again, at a later time, changes nothing |
| AccountBuilder.HasSetter | backend/ent/account_create.go:682-803 | every column but the identifier and the two foreign keys of edges is set by the insert specification |
| AccountBuilder.SpecTypeExactly | backend/ent/account_create.go:682-803 | each column is announced with the field type of its struct field |
| AccountBuilder.NodeMirrorsMutation | backend/ent/account_create.go:682-856 | the returned node holds exactly what the mutation sets, foreign keys included |
| AccountCodec.ScanValues | backend/ent/account.go:168-189 | one destination per column, of the type of that column |
| AccountCodec.Account.AssignValues | backend/ent/account.go:193-417 | stops at the first wrong type or bad document; without error the struct is the old one with each column's assignment applied in order, and the values of unknown columns are kept by name |
| AccountCodec.AssignExactly | backend/ent/account.go:193-417 | assigning a column fails exactly on a value of another type and on bytes that are no JSON, writes what is valid, and leaves the zero value for NULL |
| AccountCodec.SelectedExactly | backend/ent/account.go:411-424 | an unknown column's value can be read by its name, the last one if the name is repeated |
| AccountCodec.Decode | backend/ent/account_query.go:563-581 | allocating, scanning and assigning one row fails exactly when the decoding function does and else yields its result |
| AccountCodec.RowOf | backend/ent/account_create.go:682-856 | the inserted row holds each set column's value, foreign keys of edges included, and NULL elsewhere |
| AccountCodec.RequiredNotNull | backend/ent/account_create.go:588-662 | a row whose mutation passed the check has NULL in nillable columns only |
| AccountCodec.ColumnReadBack | backend/ent/account.go:168-417 | for every column the destination accepts what the insert stored and the assignment reads its type |
| AccountCodec.AssignsSaved | backend/ent/account.go:193-417 | if the documents read survive encoding, decoding never fails and rebuilds the saved node on the columns read, leaving zero values elsewhere |
| AccountCodec.ReadBack | backend/ent/account.go:168-417 | insert and read back, for any column list: decoding rebuilds the saved node if and only if each JSON document read survives its encoding |
| AccountCodec.ReadBackValues | backend/ent/account.go:168-417 | value by value: the identifier, each column that was set and each surviving document comes back, and nothing that was not set or not read appears |
| AccountCodec.StructExactly | backend/ent/account.go:168-417 | the struct after decoding, field by field: nil or a pointer in nillable columns, else the value, and the zero of its type for what was not set, not read or encoded as nothing |
| SavedAccounts.DefaultsTyped | backend/ent/account_create.go:527-585 | defaults keep every column at the type of its struct field |
| SavedAccounts.SavedReadsBack | backend/ent/account_create.go:2095-2152 | after a successful bulk save the row of each specification decodes to the node returned at the same index |
| SavedAccounts.KeysAreDecoded | backend/ent/account.go:193-417 | for any selection of columns, the identifier and foreign keys eager loading reads off a saved account are those the row decoder finds, unread ones counting as zero or nil |
| BulkLaws.BatchesComplete | backend/ent/account_create.go:2106-2131 | whatever the hooks do, every batch sent holds the specifications of all builders in order, and every builder has passed its check |
| BulkLaws.InvalidStopsInsert | backend/ent/account_create.go:2111-2113 | whatever the hooks do, one builder that fails its check keeps the database untouched |
| BulkLaws.Nested | backend/ent/account_create.go:2106-2143 | whatever the hooks do, the run is properly nested in builder and hook order and only the innermost mutator inserts |
| BulkLaws.MutateSound | backend/ent/account_create.go:2106-2139 | with hooks that hide no error, success from builder i on means an accepted last batch and every later builder done with its identifier; nothing is finished without a batch |
| BulkLaws.SuccessIsSaved | backend/ent/account_create.go:2123-2152 | with hooks that hide no error, success means that the last batch was accepted and each node carries the identifier its row was given |
| BulkLaws.InvalidSavesNothing | backend/ent/account_create.go:2111-2113 | with hooks that hide no error, one invalid builder makes the save fail with no batch sent and nothing finished |
| BulkHooks.DoneIsSuffix | backend/ent/account_create.go:2129-2138 | the finished builders are a suffix of the list, whatever the database answers and however often hooks retry, if no builder reached behind the first has hooks that answer without error although their mutator fails every time |
| BulkHooks.SuffixExactly | backend/ent/account_create.go:2129-2138 | for given builders and hooks the suffix holds for all answers of the database if and only if there is no such builder |
| BulkHooks.HiddenError | backend/ent/account_create.go:2117-2138 | if there is one, a database that refuses everything leaves some builder finished and the next one not |
| BulkHooks.HonestNeverSwallows | backend/ent/account_create.go:2129-2138 | honest hooks behind the first builder are enough for the suffix |
| BulkEndings.MutateEnds | backend/ent/account_create.go:2106-2143 | every run ends with an outcome and a fate of its last batch that the hooks and checks allow |
| BulkEndings.MutateReaches | backend/ent/account_create.go:2106-2143 | every ending the hooks and checks allow is reached against some database that agrees with the answers given so far |
| BulkEndings.MutateLocal | backend/ent/account_create.go:2106-2143 | a run depends only on the answers to the batches it sends |
| BulkEndings.SavedExactly | backend/ent/account_create.go:2095-2152 | for given builders and hooks success means an accepted last batch for all answers of the database if and only if no allowed ending claims success without one |
| BulkEndings.HonestExactly | backend/ent/account_create.go:2117-2138 | a hook is honest if and only if around a builder that passes its check success means saved for every database, with or without the node's identifier |
| BulkLaws.StraightRun | backend/ent/account_create.go:2106-2143 | with hooks that call the mutator at most once, positions are entered in builder and hook order and left in reverse, with at most one insert between |
| BulkLaws.AllOrNothing | backend/ent/account_create.go:2095-2152 | with hooks that call the mutator exactly once there is one batch if all builders pass and none otherwise, and specifications exist exactly before the first that fails |
| BulkLaws.SaveOutcome | backend/ent/account_create.go:2106-2152 | with pass-through hooks the save reports the first invalid builder and its column, else the answer of the one insert |
| BulkCreate.AccountCreate.FillDefaults | backend/ent/account_create.go:527-585 | column by column: no error if and only if the default functions needed are wired, what was set stays, and without error nothing provided by defaults is missing |
| BulkCreate.AccountCreate.CreateSpecification | backend/ent/account_create.go:682-891 | a new node and a new specification for the fields of the mutation, both without identifier |
| BulkCreate.Chain.TakeIdentifiers | backend/ent/account_create.go:2120-2123 | each specification takes the identifier answered for its index and keeps its own where none is |
| BulkCreate.Chain.BatchCreate | backend/ent/account_create.go:2120-2128 | one batch with all specifications as they stand, never a nil one |
| BulkCreate.Chain.FinishAt | backend/ent/account_create.go:2132-2137 | the node and the mutation get the identifier of the specification and the mutation is done; other mutations keep their flags |
| BulkCreate.Chain.Mutate | backend/ent/account_create.go:2106-2143 | the recursive chain leaves arrays, flags, batches and trace as the run function says, and does not touch entries of earlier builders |
| BulkCreate.Chain.Follow | backend/ent/account_create.go:2140-2142 | a hook's calls and answers, likewise |
| BulkCreate.Chain.Core | backend/ent/account_create.go:2106-2139 | the mutator between the hooks, likewise |
| BulkCreate.DefaultsOfBuilder | backend/ent/account_create.go:2102-2105 | builders with mutations of their own get their defaults independently of each other |
| BulkCreate.AccountCreateBulk.FillAllDefaults | backend/ent/account_create.go:2102-2105 | all builders get their defaults, in order, before any mutator runs |
| BulkCreate.AccountCreateBulk.Save | backend/ent/account_create.go:2095-2152 | an error carried by the builder changes nothing; otherwise outcome and everything left behind are those of the run, and the node list is returned on success only |
| BulkCreate.BuilderPasses | backend/ent/account_create.go:2105-2113 | a builder of the list passes its check if and only if its caller set name, platform and type within their limits, whatever else was set is within its limits and the default functions needed are wired; each column left out then holds its declared default |
| BulkCreate.SaveSucceeded | backend/ent/account_create.go:2132-2152 | after success every node exists, every mutation is done and knows the node's identifier, which is the one the accepted batch assigned |
| BulkCreate.SaveStopped | backend/ent/account_create.go:2111-2113 | one invalid builder leaves every mutation's flag and identifier as they were |
| BulkCreate.SaveMarksSuffix | backend/ent/account_create.go:2129-2138 | the mutations a save marks done are those of the builders from some position on, if no builder reached behind the first has hooks that swallow every failure |
| Strings.Find | tools/check_pnpm_audit_exceptions.py:14 | the first colon splits a line |
| AuditText.StripPadded | tools/check_pnpm_audit_exceptions.py:15-20 | stripping gives back a trimmed text from any padding |
| AuditText.SplitKV | tools/check_pnpm_audit_exceptions.py:12-20 | splitting fails exactly on a line without a colon |
| AuditText.SplitExactly | tools/check_pnpm_audit_exceptions.py:12-20 | in a line with any padding the trimmed key comes back, and so does a value that does not begin and end with one quote; a value in single or in double quotes loses exactly that pair, and a lone quote everything |
| AuditText.SplitDressed | tools/check_pnpm_audit_exceptions.py:12-20 | a trimmed key without colon and its value survive splitting, the value bare or in either quote |
| ExceptionFile.ParseLine | tools/check_pnpm_audit_exceptions.py:29-45 | one line changes the parser's state as its class says |
| ExceptionFile.ParseExceptions | tools/check_pnpm_audit_exceptions.py:23-48 | the parser raises exactly if an entry line lacks a colon, and else returns one record per written block |
| ExceptionFile.ParseIsBlocks | tools/check_pnpm_audit_exceptions.py:23-48 | parsing is grouping lines into blocks and reading each block as a record |
| ExceptionFile.RecordPerEntry | tools/check_pnpm_audit_exceptions.py:34-48 | as many records as entry lines, in order, none of them empty |
| ExceptionFile.IndentationIgnored | tools/check_pnpm_audit_exceptions.py:29 | lines that differ in surrounding white space parse alike |
| ExceptionFile.IgnoredLineInserted | tools/check_pnpm_audit_exceptions.py:30-33 | blank lines, comments and headers can be inserted anywhere |
| ExceptionFile.RoundTrip | tools/check_pnpm_audit_exceptions.py:12-48 | printing records as lines and parsing the lines gives the records back; each value may be written bare, if it is trimmed and not between quotes, or in single or double quotes, whatever it contains |
| ExceptionText.ReadJoin | tools/check_pnpm_audit_exceptions.py:27-28 | lines without line breaks, joined to a text, are read back line by line |
| ExceptionText.ReadLines | tools/check_pnpm_audit_exceptions.py:27-28 | a text whose lines end in any mix of LF, CRLF and CR is read line by line, each line ending in a newline, with the rest after the last break if there is one |
| ExceptionText.ReadUnbroken | tools/check_pnpm_audit_exceptions.py:27-48 | no key and no value parsed from a text contains a line break |
| ExceptionText.RoundTripExactly | tools/check_pnpm_audit_exceptions.py:12-48 | records with printable, distinct keys, each value bare or in either quote, survive being printed to a text and parsed if and only if no key and no value contains a line break |
| ReportGenerator.CollectVia | tools/check_pnpm_audit_exceptions.py:84-108 | advisories and titles of a `via` list, in step |
| ReportGenerator.IterVulnerability | tools/check_pnpm_audit_exceptions.py:82-111 | raises exactly for an entry that is no object or whose `via` has an object with a title that is no string, and else yields one finding per element of `via` that names a truthy advisory, in order |
| ReportGenerator.IterVulns | tools/check_pnpm_audit_exceptions.py:64-111 | raises exactly for a report, advisory or vulnerability it cannot read, and else yields one finding per entry of the advisories section and then those of each entry of the vulnerabilities section, in order, read off the JSON value |
| ReportReading.GetExactly | tools/check_pnpm_audit_exceptions.py:66 | `get` finds the value of the first member with the name, and null without one |
| ReportReading.AdvisoryExactlyYields | tools/check_pnpm_audit_exceptions.py:51-78 | an advisory yields a finding if and only if it is an object whose name is the first truthy of two members and whose identifier is the first truthy of seven, `cves` consulted only when needed and subscripted as the script does |
| ReportReading.VulnerabilityExactlyYields | tools/check_pnpm_audit_exceptions.py:82-111 | a vulnerability yields a list of findings if and only if its titles can be joined and the list has one finding per element of `via` with a truthy advisory, in order |
| ReportReading.ReportExactlyYields | tools/check_pnpm_audit_exceptions.py:64-111 | a report yields a list of findings if and only if it is an object and the list has one finding per advisory and then those of each vulnerability in turn; a section that is missing or no object has no entries |
| AuditReport.ReportExactly | tools/check_pnpm_audit_exceptions.py:64-111 | when a report raises, and which findings it yields, in terms of its two sections |
| AuditReport.AdvisoryExactly | tools/check_pnpm_audit_exceptions.py:51-78 | an advisory raises exactly if it is no object or its `cves` is consulted, truthy and neither list nor string; else name and identifier are the first truthy of two and of seven candidates |
| AuditReport.AdvisoriesInOrder | tools/check_pnpm_audit_exceptions.py:66-78 | the first format yields one finding per advisory, in order |
| AuditReport.VulnerabilitiesInOrder | tools/check_pnpm_audit_exceptions.py:80-111 | the second format yields the findings of each vulnerability in turn |
| AuditReport.VulnerabilityExactly | tools/check_pnpm_audit_exceptions.py:82-111 | when one vulnerability raises, and which findings it yields |
| AuditReport.ItemsAreFirst | tools/check_pnpm_audit_exceptions.py:90-102 | advisory and title of a `via` object are the first truthy of five and of four members |
| AuditReport.SilentReport | tools/check_pnpm_audit_exceptions.py:64-111 | a report yields nothing if and only if it can be read, lists no advisory and no `via` names a truthy one, whatever the severities |
| AuditReport.YieldedIff | tools/check_pnpm_audit_exceptions.py:109-111 | a vulnerability is reported exactly by its truthy advisories |
| AuditReport.SilentIff | tools/check_pnpm_audit_exceptions.py:110-111 | it yields nothing if and only if no advisory is truthy, whatever its severity |
| AuditReport.NumericSource | tools/check_pnpm_audit_exceptions.py:90-109 | a `via` object with a numeric source and no truthy title, url or advisory has an identifier, yet makes the script raise |
| AuditGate.BuildIndex | tools/check_pnpm_audit_exceptions.py:153-185 | no error exactly if all exceptions are well-formed with distinct normalised keys; the index holds what was accepted |
| AuditGate.CheckFindings | tools/check_pnpm_audit_exceptions.py:188-219 | the loop with its `seen` set counts no error exactly if every first occurrence is accepted by the index |
| AuditGate.AcceptedIsPasses | tools/check_pnpm_audit_exceptions.py:188-219 | checking first occurrences against the index decides the verdict stated on the exceptions themselves |
| AuditGate.Gate | tools/check_pnpm_audit_exceptions.py:142-243 | exit code 0 if and only if the list parses, the report yields findings, every record has its five fields, a date that can be read and a package and advisory that are not blank, no two records are for the same package and advisory, no severity is unreadable, and every finding that is high or critical (trimmed, in any case) and has a name also has an advisory and a current record for both whose severity is blank or that of the first such finding |
| AuditGate.PassesExactly | tools/check_pnpm_audit_exceptions.py:110-219 | the verdict on index entries and classes of findings is that verdict on the records and findings themselves |
| GateLaws.SeenExact | tools/check_pnpm_audit_exceptions.py:191-219 | the verdict without `seen` is the verdict with it and, for keys whose exception fixes a severity, agreement of all occurrences with the first |
| GateLaws.SeenTransparent | tools/check_pnpm_audit_exceptions.py:191-219 | with one severity per key `seen` changes nothing |
| GateLaws.OrderMatters | tools/check_pnpm_audit_exceptions.py:204-215 | if every key has an occurrence that an exception covers and some occurrence is not covered, one order of the findings passes and another fails |
| GateLaws.OrderExactly | tools/check_pnpm_audit_exceptions.py:191-219 | the verdict is the same for all orders of the findings if and only if each occurrence is covered on its own or some key has no covered occurrence, an exception is bad or a finding is unreadable |
| GateLaws.FindingsPermute | tools/check_pnpm_audit_exceptions.py:193-219 | with one severity per key findings may come in any order and number |
| GateLaws.ExceptionsPermute | tools/check_pnpm_audit_exceptions.py:156-185 | the verdict does not depend on the order of the exceptions |
| GateLaws.RecordsPermute | tools/check_pnpm_audit_exceptions.py:156-185 | nor on the order of the written records |
| GateLaws.ExceptionAdded | tools/check_pnpm_audit_exceptions.py:156-185 | a further valid exception for a new key never turns a pass into a failure |
| GateLaws.FindingsAppended | tools/check_pnpm_audit_exceptions.py:193-219 | findings appended at the end never turn a failure into a pass |
| GateLaws.DeadlineIsMinimum | tools/check_pnpm_audit_exceptions.py:216-219 | a day is before the deadline if and only if it is before the expiry of each exception matched |
| GateLaws.ExpiryThreshold | tools/check_pnpm_audit_exceptions.py:187-219 | a gate that passes on some day passes on exactly the days up to the earliest expiry of the exceptions matched |
| Branding.Escape | frontend/vite.config.ts:6-14 | escaped text contains no angle bracket and no quote |
| Branding.EscapeInvertible | frontend/vite.config.ts:6-14 | escaping loses nothing |
| Branding.TitleFrom | frontend/vite.config.ts:33-34 | the leftmost title, in any case, found if and only if there is one |
| Branding.TagsExactly | frontend/vite.config.ts:34 | the tags are matched letter by letter, each letter small or capital |
| Branding.TitleReplaced | frontend/vite.config.ts:32-37 | text around the leftmost title is unchanged, and the new title stands in its place, is the leftmost again and decodes to the site name |
| Branding.BrandTwice | frontend/vite.config.ts:32-37 | branding a branded page changes nothing |
| Branding.VerbatimExactly | frontend/vite.config.ts:33-36 | the escaped name reaches every page unchanged if and only if no `$` in it stands before a dollar sign, a backtick or one of the five characters that are escaped |
| Branding.PatternsExactly | frontend/vite.config.ts:33-36 | what each replacement pattern becomes, and that other text stays |

## Left out

- The usage-logs edge: the same loader as the account-groups edge with another table.
- SQL text, drivers, transactions, contexts, `Unique` and DISTINCT, row locks and query modifiers: a query is a selection from a table; driver errors are not modelled, so loaders fail only through their own checks.
- Interceptors, `prepareQuery` and soft deletion: identity.
- Column names that `prepareQuery` rejects: selections name columns of the table.
- Rows equal under the requested order: they keep table order, where a database may choose.
- A limit of zero: taken literally, where the query library may read it as no limit.
- EdgeLaws.RerunAgrees: not stated for trees with a groups edge, because that loader adds a second join to the selector on every run and the library's treatment of two joins is not part of this model.
- EdgeLaws.ParentLimitExact: exact conditions are given for a limit without an offset on the parent, children and account-groups edges and on the account of a join node; for other windows below the root `Batch` still says what is loaded.
- EagerLoading.AccountQuery.SqlAll: edges below groups and proxies and field selection on them are not modelled; nested trees go through parent, children and account-groups.
- `Clone`, `First`, `Only`, `Count`, `GroupBy` and the single-account `Save`: shorter paths through the same parts.
- BulkCreate.Chain.Mutate: hooks pass on the mutation they were given and do not edit its fields, decide by the outcomes of their own calls and call finitely often; the type test on the mutation is therefore always met.
- BulkCreate.Chain.BatchCreate: a refused batch leaves the specifications as they were, and constraint errors are not told apart from others; conflict clauses are not modelled.
- The edges of a new account to groups, children and usage logs: they write other rows than the one read back.
- AccountCodec.ReadBack: integers, times and decimals are exact, as are the columns that hold them; the precision a database column keeps is not modelled, and neither is merging two documents when a column is listed twice.
- Conversions of the driver between different kinds of values: reported as errors, since no column of the account needs one.
- The generated members of the other entities: copies of the ones modelled.
- The text of the gate's messages, argument parsing and the decoding of the files' bytes; an interpreter exception counts as exit code 1.
- AccountBuilder.FirstRejected: length limits count characters, where the entity library counts bytes; the two agree on ASCII text.
- Member names repeated inside one JSON object: objects have one value per name.
- Branding.BrandTitle: a function of the page, since the variable the code updates is rewritten once in this step.
- Trimming of the site name and the logo, link and script rewriting beside the title: the title step takes the trimmed name.
