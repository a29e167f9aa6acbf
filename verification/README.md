# Kernloop in Dafny

A Dafny 4.11 model of the parts of kernloop whose promises span several files, with proofs of those promises.
`dafny verify dfyconfig.toml` checks the whole project.

**The program ledger** (`Text`, `ConstraintTags`, `Scrum`, `LedgerTree`, `TreeGrowth`, `LedgerModel`, `LedgerCommands`,
`ParentsFirst`, `Listing`, `Tracker`, `Emission`, `EmissionLaws`, `EmitCommand`, `CommandLaws`, `LedgerRuns`,
`LinkLaws`, `FilingOrder`, `FilingRuns`, `CallLog`, `StoryLaws`, `Outcomes`, `EveryLedger`, `Addressing`,
`LedgerExamples`, `ProgramStore`, `Kernloop`). A program is a tree of rows; each row holds a contract, a rung (planned,
emitted, done) and an issue ref. `ProgramStore` is the store as a class whose methods commit whole or not at all,
`Tracker` is the outside issue tracker as an adversary whose answers may depend on every call so far, and `Kernloop`
holds the commands with their loops. Each method is proved equal to a specification function. `LedgerRuns` makes these
the steps of a state machine, in which every invocation loads its own overlay, and proves what holds in every reachable
ledger: budgets over the whole tree, ids, altitudes and inheritance, rungs and refs, one rung at a time, and a finite
lifetime. `LinkLaws` follows the parent links and task lists into the bodies the tracker is left with, and `FilingRuns`
accounts, call by call, for every issue ever created over a run: only for planned nodes, never again once recorded.
`CallLog` adds who may write at all and what each call sends and hears. `StoryLaws`, `Outcomes` and `EveryLedger` state
the same commands and ledgers field by field and text by text, without the functions that compute them. All of these
rest on checks that look at one call only.

**The workshop ladder** (`WorkshopLadder`, `ToolHistory`, `Workshop`). The lifecycle records equal the replay of an
append-only history; from that follow where every tier came from, how far decays are apart, and that records, installed
tools and the cap agree.

**The brief budget** (`BriefBudget`, `BriefWords`). The greedy fitter: optimal truncation, a hard total, lexicographic
monotonicity, and a description of the whole brief that only the fitted one meets.

**Text and portability** (`Json`, `CanonicalJson`, `Fence`, `JsonArrayScan`, `MemoryModel`, `MemoryLaws`, `Memory`).
Canonical printing is injective up to member order, the fence step and the array scanner are exact, for bracketed texts
in the sense of sections 5 and 7 of RFC 8259, and memory export and import are a faithful and repeatable round trip.

Where the repository's code and its own words differ, the model follows the code:

- An emit links each issue to its parent's, and then edits the body of every parent that has children filed in the same
  run (`packages/cli/src/program-emit-ledger.ts:264-284`). The edited body starts from the row again, without the link, so
  a parent's own `Parent: #N` line is lost exactly when its edit is accepted, unless its goal spells the line
  (`LinkLaws.EmitLinks`; `LedgerExamples.LinkIsLost` is a run of three commands that loses one).
- Ids grow with each decomposition, but no command takes one of more than 256 characters. A stored node can be named
  exactly when its id is within that limit (`Addressing.ReachIsLength`); a program id of 255 characters is accepted and
  has children that no command can name (`LedgerExamples.LongProgram`).
- The fence around a model's answer is found without regard to strings: a fenced array is read whole exactly when no string
  in it holds three backticks (`JsonArrayScan.FencedArrayIsExtracted`).
- `packages/faculty-scrum/src/errors.ts` calls the unsafe-label error unreachable from decomposed input. It is reached by a
  track longer than 74 or a sprint longer than 73 characters; `Scrum.LabelsOfAChild` gives the exact condition.
- `packages/faculty-toolsmith/src/lifecycle.ts` never withdraws a removal proposal, not even after clean runs
  (`WorkshopLadder.ProposalsStay`).
- Section provenance is described as deduplicated. It repeats the notice's own source when a truncated section keeps an item
  of that source, and only then (`BriefBudget.ProvenanceDuplicates`).
- A larger total may shorten a later section of a brief (`BriefBudget.LaterSectionMayShrink`); what does grow is the
  vector of kept counts, lexicographically.
- The memory document's schema admits a blank provenance and an empty distill candidate, which the import then refuses as
  a whole (`MemoryLaws.ImportIsExact`).

## Model

| member | source | states |
|---|---|---|
| `ConstraintTags.ParseConstraintTags` | `packages/contracts/src/constraints.ts:79-110` | the reading loop returns, for every list, the tags and free-form rest of the specified reader, or the first error it meets |
| `ConstraintTags.ReaderIsExact` | `packages/contracts/src/constraints.ts:79-110` | a list is readable exactly when it has at most one legal altitude and at most one safe track and sprint; what it then says is determined tag by tag, the last assignment winning |
| `ConstraintTags.ReaderInWords` | `packages/contracts/src/constraints.ts:79-110` | a list is readable exactly with at most one altitude, which is epic, story or task, and at most one track and one sprint, each a letter or digit and then letters, digits, dots, underscores and hyphens; it then says just these, its last assignment and its free-form rest |
| `ConstraintTags.ErrorInWords` | `packages/contracts/src/constraints.ts:55-110` | an unreadable list reports its first refused tag, everything before it being readable: a repeat, else a value that is none |
| `ConstraintTags.KeyInWords` | `packages/contracts/src/constraints.ts:79-90` | a constraint has a key exactly when it is the key's name, a colon and a value |
| `ConstraintTags.TagReadsBack` | `packages/contracts/src/constraints.ts:39-41` | a written tag reads back as its key and its value |
| `ConstraintTags.Concatenation` | `packages/contracts/src/constraints.ts:79-110` | reading is compositional: the free-form part and the values of a concatenation are those of its parts, in order |
| `ConstraintTags.FreeIsASelection` | `packages/contracts/src/constraints.ts:79-110` | the free-form rest is exactly the constraints whose prefix is no known key |
| `ConstraintTags.ReaderIsIdempotent` | `packages/contracts/src/constraints.ts:79-110` | reading the free-form rest again yields that rest and no tag |
| `Scrum.DecomposeIsExact` | `packages/faculty-scrum/src/decompose.ts:203-222` | decomposition succeeds exactly when the parent is valid and readable, every story is valid, altitudes descend one rung, each budget dimension sums within the parent, and every child reads back; it then yields the derived children in order |
| `Scrum.ChildrenAreSound` | `packages/faculty-scrum/src/decompose.ts:154-179` | every child of an accepted decomposition has the derived id, overlay and parent, an authority at most its parent's and at most suggest, a positive budget, one altitude one rung below, and free-form constraints that extend the parent's |
| `Scrum.StoryReadsBack` | `packages/faculty-scrum/src/decompose.ts:137-179` | a child keeps its story's goal and budget, holds the lower of its parent's authority and suggest, and its tags read back as the story's altitude, track, sprint and assignee, whatever it inherited |
| `StoryLaws.ChildrenTellTheirStories` | `packages/faculty-scrum/src/decompose.ts:154-179` | an accepted decomposition yields one child a story, in order; every field of it is written out: id, parent, goal, budget, evidence, definition of done, overlay, ceiling, and the constraints text by text |
| `StoryLaws.AcceptedIsFaultless` | `packages/faculty-scrum/src/decompose.ts:203-222` | a decomposition is accepted exactly when parent and stories are valid, the parent is no task, every altitude is one rung down, the three sums are within the parent's amounts, and every child's tags are readable |
| `StoryLaws.RefusalIsTheFirstFault` | `packages/faculty-scrum/src/decompose.ts:106-135` | a refused decomposition reports the first fault in the order of the checks, with the first index, the expected and actual altitude, and the first overspent dimension |
| `StoryLaws.StorySchema` | `packages/faculty-scrum/src/decompose.ts:62-92` | a story is valid exactly when no text of it is empty and each amount of its budget is positive |
| `StoryLaws.TaskSchema` | `packages/contracts/src/task-contract.ts:20-34` | a contract is valid exactly when no text of it is empty and no amount of its budget is negative |
| `Scrum.ChildIdInjective` | `packages/faculty-scrum/src/decompose.ts:169` | derived ids of different indexes differ |
| `Scrum.ChildAltitudeTag` | `packages/faculty-scrum/src/decompose.ts:142-151` | the altitude a child reads back as is its story's |
| `Scrum.ChildInheritsFree` | `packages/faculty-scrum/src/decompose.ts:142-151` | a child's free-form constraints start with the parent's |
| `Scrum.LabelsOfAChild` | `packages/faculty-scrum/src/labels.ts:76-89` | a decomposed child gets its labels exactly when its track has at most 74 characters and its sprint at most 73; the error documented as unreachable is reached otherwise |
| `StoryLaws.LabelsAreExact` | `packages/faculty-scrum/src/labels.ts:76-89` | a task's labels are, in order, `altitude:` and its altitude, `track:` and its track, `sprint:` and its sprint, each when the tags have one, and `agent:` and what follows `agent.` in its assignment; it has none at all exactly when its tags are unreadable or one of these is no safe label |
| `StoryLaws.LabelsOfAStory` | `packages/faculty-scrum/src/labels.ts:76-89` | a child's labels are its story's altitude, the track and sprint its tags read back as, and the story's agent |
| `StoryLaws.NamesTell` | `packages/faculty-scrum/src/decompose.ts:56` | the five assignees by the names their labels carry |
| `Scrum.DedupedKeepsMembers` | `packages/faculty-scrum/src/labels.ts:86` | deduplication keeps every label and repeats none |
| `LedgerTree.AntichainWithinRoot` | `packages/faculty-scrum/src/decompose.ts:127-135` | any set of pairwise non-ancestor nodes of a well-formed program sums within the root's budget, on each dimension |
| `LedgerTree.LeavesWithinRoot` | `packages/faculty-scrum/src/decompose.ts:127-135` | the leaves of a program sum within the root's budget |
| `LedgerTree.DepthIsBounded` | `packages/faculty-scrum/src/decompose.ts:114-125` | depth plus remaining height never exceeds three, and only the root has no altitude |
| `LedgerTree.AltitudeDescends` | `packages/faculty-scrum/src/decompose.ts:106-125` | every non-root node is exactly one rung below its parent, unless the parent is the root |
| `LedgerTree.ConstraintsInherit` | `packages/faculty-scrum/src/decompose.ts:137-151` | a node's free-form constraints are a prefix of every descendant's |
| `LedgerTree.LevelSize` | `packages/faculty-scrum/src/decompose.ts:62-66` | a depth level holds at most as many nodes as the root has tokens |
| `LedgerTree.TreeSize` | `packages/faculty-scrum/src/decompose.ts:62-66` | a program with T root tokens never holds more than 3T + 1 nodes |
| `TreeGrowth.SecondDecompositionCollides` | `packages/faculty-scrum/src/decompose.ts:169` | a node that has any child has the child `.1`, so a second decomposition always collides |
| `TreeGrowth.ChildIdIsAKid` | `packages/faculty-scrum/src/decompose.ts:168-171` | in a well-formed program an id of the form parent`.k` can only be that parent's own child |
| `TreeGrowth.BatchIsFresh` | `packages/faculty-scrum/src/decompose.ts:168-171` | under a childless node all derived ids are new, so the batch cannot collide |
| `TreeGrowth.DecompositionIsABatch` | `packages/faculty-scrum/src/decompose.ts:203-222` | an accepted decomposition has the shape the tree invariant needs of a batch |
| `TreeGrowth.GrowthKeepsTree` | `packages/faculty-scrum/src/decompose.ts:203-222` | planting an accepted batch under a childless node keeps the whole tree well formed, budgets included |
| `LedgerModel.MoveIsExact` | `packages/cli/src/program-store.ts:245-269` | a move succeeds exactly for the next rung with an acceptable ref (a non-empty one to reach emitted), changes only rung and ref, and keeps a ref it was not given |
| `LedgerModel.GoodRefIsNeverPlainHttp` | `packages/cli/src/program-store.ts:225-237` | an accepted ref that has a URL scheme has the scheme https, in any letter case |
| `Outcomes.RefIsText` | `packages/cli/src/program-store.ts:225-237` | a ref is well shaped exactly when it has at most 512 characters, no control character, and no scheme but https in any letter case |
| `Text.TrimInWords` | `packages/cli/src/program-store.ts:358-371` | the stored ref is the given one without the white space at its two ends, and starts and ends with no white space |
| `Text.SpacesAreListed` | `packages/cli/src/program-store.ts:358-371` | the white space trimming takes off, code point by code point |
| `LedgerModel.InsertIsExact` | `packages/cli/src/program-store-write.ts:45-86` | a batch goes in exactly when its ids are new and distinct, and then adds exactly those rows, all planned, leaving every old row as it was |
| `LedgerModel.BatchInsert` | `packages/cli/src/program-store-write.ts:45-86` | an accepted batch goes in exactly under a node without children, and the program stays well formed |
| `Outcomes.AddNodesInWords` | `packages/cli/src/program-store-write.ts:22-86` | adding nodes is refused for an unknown program, then for a parent neither stored nor in the batch, then for an id stored or repeated; otherwise the program keeps its goal and rows and gains exactly the inputs as planned rows without a ref |
| `Outcomes.CreateProgramInWords` | `packages/cli/src/program-store.ts:335-344` | creating a program is refused for a stored id, then for a repeated node id; otherwise exactly the inputs become its planned rows |
| `ProgramStore.Store.InsertNodes` | `packages/cli/src/program-store-write.ts:53-86` | the insert loop writes the whole batch or restores the state before it |
| `ProgramStore.Store.CreateProgram` | `packages/cli/src/program-store.ts:335-344` | create writes program and nodes together or nothing |
| `ProgramStore.Store.AddNodes` | `packages/cli/src/program-store-write.ts:45-86` | unknown program, unresolved parent and colliding id are refused with the store unchanged |
| `ProgramStore.Store.AdvanceNode` | `packages/cli/src/program-store.ts:358-371` | advance changes exactly the named row as the transition rule says, or nothing |
| `ProgramStore.Store.ListNodes` | `packages/cli/src/program-store.ts:352-356` | the listing is every row of the program once, by ascending id |
| `Listing.ParentSortsEarlier` | `packages/cli/src/program-store.ts:352-356` | in a well-formed program every node sorts after its parent |
| `Text.LessInWords` | `packages/cli/src/program-store.ts:352-356` | one id is listed before another exactly when it is a proper prefix or has the smaller character where they first differ |
| `Listing.ListingIsParentsFirst` | `packages/cli/src/program-store.ts:352-356` | so a listing by ascending id is already parents-first |
| `Listing.SelectedRows` | `packages/cli/src/program-store.ts:352-356` | the sublist of one rung is exactly the rows on that rung |
| `LedgerCommands.CreateIsExact` | `packages/cli/src/program-ledger-commands.ts:69-114` | create succeeds exactly on a fresh id within the length limit, a valid root, an acceptable decomposition and safe labels; it then adds the root and its children and the program is well formed |
| `Outcomes.CreateStoresStories` | `packages/cli/src/program-ledger-commands.ts:69-114` | a created program is its root, whose contract is written out, and one planned row a story, each holding every field of its story and the labels that story stands for; no other program changes |
| `Outcomes.CreateRefusal` | `packages/cli/src/program-ledger-commands.ts:69-114` | a refused create reports the first of: id too long, empty id or goal, the decomposition's own fault, an unsafe label, an existing id |
| `LedgerCommands.DecomposeNodeIsExact` | `packages/cli/src/program-ledger-commands.ts:131-174` | decompose-node succeeds exactly on an acceptable decomposition with safe labels of a stored node that has no children yet (or with no stories), and the program stays well formed |
| `Outcomes.DecomposeStoresStories` | `packages/cli/src/program-ledger-commands.ts:131-174` | a decomposed node's program keeps its goal and every row, and gains one planned row a story, each holding every field of its story and the labels it stands for |
| `Outcomes.DecomposeRefusal` | `packages/cli/src/program-ledger-commands.ts:131-174` | a refused decompose-node reports the first of: ids too long or unknown, the decomposition's own fault, an unsafe label, a node that already has children |
| `LedgerCommands.AdvanceIsExact` | `packages/cli/src/program-store.ts:358-371` | advance succeeds exactly on a stored node and a legal move |
| `Outcomes.AdvanceInWords` | `packages/cli/src/program-ledger-commands.ts:226-267` | every advance: its error, one by one, or the ledger with that one row's rung and, if one was given, trimmed ref changed |
| `LedgerCommands.MoveKeepsProgram` | `packages/cli/src/program-store.ts:358-371` | a legal move touches neither the tree nor any other row |
| `LedgerCommands.AdvanceKeepsLedger` | `packages/cli/src/program-ledger-commands.ts:226-267` | a successful advance keeps the whole ledger well formed |
| `Kernloop.Kernloop.CreateOp` | `packages/cli/src/program-ledger-commands.ts:69-114` | the command changes the store exactly as specified, error by error |
| `Kernloop.Kernloop.DecomposeNodeOp` | `packages/cli/src/program-ledger-commands.ts:131-174` | the command changes the store exactly as specified, error by error |
| `Kernloop.Kernloop.AdvanceOp` | `packages/cli/src/program-ledger-commands.ts:226-267` | the command changes the store exactly as specified, error by error |
| `ParentsFirst.OrderParentsFirst` | `packages/cli/src/program-emit-tree.ts:43-63` | the placing loop terminates on every list and returns the specified order |
| `ParentsFirst.OrderIsParentsFirst` | `packages/cli/src/program-emit-tree.ts:43-63` | for any list with distinct ids, cycles included: a permutation, whose placed part is exactly the nodes whose parent chain leaves the set, each after its in-set parent, followed in input order by the nodes on or below a cycle |
| `ParentsFirst.OrderedIsUnchanged` | `packages/cli/src/program-emit-tree.ts:43-63` | a list that is already parents-first comes back unchanged |
| `Listing.OrderIsIdentityOnPrograms` | `packages/cli/src/program-emit-tree.ts:43-63` | on the planned part of a well-formed program's listing the ordering is the identity |
| `Tracker.IssueTracker.Create` | `packages/tracker/src/provider.ts:199-204` | an invalid input is refused without a call, a dry run makes no call, and otherwise exactly one call is logged with its answer |
| `Tracker.IssueTracker.Edit` | `packages/tracker/src/provider.ts:229-236` | an invalid body is refused without a call, and otherwise exactly one call is logged |
| `CallLog.CreateInWords` | `packages/tracker/src/provider.ts:199-204` | a valid issue is created, or in a dry run only proposed under a fixed ref; an invalid one is refused and nothing is logged |
| `CallLog.EditInWords` | `packages/tracker/src/provider.ts:229-236` | a body of one to 65536 characters is sent and logged with its answer, any other refused |
| `CallLog.ValidIsText` | `packages/tracker/src/types.ts:46-85` | an issue is valid exactly with a title of 1 to 256 characters, a body of at most 65536, and at most 20 labels of at most 80 characters from the allowed ones |
| `Tracker.NumberResolves` | `packages/cli/src/program-emit-tree.ts:23-34` | a ref resolves to a number exactly when, trimmed, it is a bare number, a `#` number or a path whose last segment is digits; every other ref resolves to nothing |
| `Tracker.NumberOfStoredRef` | `packages/cli/src/program-emit-tree.ts:30-34` | trimming a ref before storing it does not change the number it resolves to |
| `Emission.OneStep` | `packages/cli/src/program-emit-ledger.ts:96-123` | filing one node touches only its row, reports it truthfully, and keeps the known numbers equal to the numbers of the stored refs |
| `Emission.RecordIsExact` | `packages/cli/src/program-emit-ledger.ts:131-158` | a filed ref is recorded exactly when it is a legal move to emitted; otherwise the row stays planned and the ref is reported |
| `Emission.SeedAfterRecord` | `packages/cli/src/program-emit-ledger.ts:226-260` | recording a ref adds exactly its number to the numbers seeded from the ledger |
| `EmissionLaws.EmitIsTruthful` | `packages/cli/src/program-emit-ledger.ts:239-260` | over any tracker behaviour: one report row per queued node, in order, each matching what happened to its row, and no other row changed |
| `EmissionLaws.LinksAreCorrect` | `packages/cli/src/program-emit-ledger.ts:239-260` | the issue handed to createIssue has the node's goal as title, its labels, `Parent: #N` exactly when the ledger holds a resolvable ref for the node's own parent, from this run or an earlier one, with N its number, and then goal, rule and payload (at creation only: the edit of an epic may drop the line, see the next rows) |
| `EmissionLaws.ParentNumberIsExact` | `packages/cli/src/program-emit-ledger.ts:226-260` | the number linked to is N exactly when the parent's row has left planned with a ref that, trimmed, spells N |
| `EmissionLaws.ExecuteCalls` | `packages/cli/src/program-emit-ledger.ts:96-123` | in execute mode the tracker saw exactly the calls the report accounts for, in order |
| `EmissionLaws.DryRunIsPure` | `packages/cli/src/program-emit-ledger.ts:96-123` | a dry run leaves rows and tracker as they were and proposes exactly the valid issues |
| `EmissionLaws.CallsAreAccounted` | `packages/cli/src/program-emit-ledger.ts:131-158` | successful createIssue calls equal recorded plus filed-but-not-recorded report rows |
| `EmissionLaws.EmitAccounting` | `packages/cli/src/program-emit-ledger.ts:302-346` | in one emit, successful createIssue calls equal newly emitted nodes plus nodes reported filed but not recorded; the same over whole runs is FilingRuns.RunAccounting |
| `LinkLaws.FiledAreStored` | `packages/cli/src/program-emit-ledger.ts:239-260` | the nodes an emit remembers as filed this run are distinct, are exactly as they were queued, and carry the number that the ref stored for them resolves to |
| `LinkLaws.EmitListsChildren` | `packages/cli/src/program-emit-ledger.ts:264-284` | for any emit: one body edit for each parent with children filed this run, in its own issue, whose body is the parent's own body and then one task line per child in filing order, and the tracker's log grows by exactly the well-formed edits |
| `LinkLaws.ChildIsListedOnce` | `packages/cli/src/program-emit-ledger.ts:264-284` | each node an emit files under a parent it filed too is named exactly once in that parent's list and in no other list |
| `FilingOrder.EmitKeepsOrder` | `packages/cli/src/program-emit-ledger.ts:239-284` | in any emit the filed nodes keep the order of the queue, parents are edited in that order, and every task list names its children in that order |
| `LinkLaws.LinkSurvives` | `packages/cli/src/program-emit-ledger.ts:264-284` | a Parent line written at creation is still at the head of the node's last accepted body exactly when no edit of its own issue was accepted, or the goal itself spells the line |
| `LinkLaws.EmitLinks` | `packages/cli/src/program-emit-ledger.ts:239-284` | for every node of any emit: the issue created is linked to the ledger parent exactly when that parent has a resolvable number; the line stays exactly when no edit of the issue was accepted (unless the goal spells it); only a node with children filed this run is edited |
| `LinkLaws.EmitLog` | `packages/cli/src/program-emit-ledger.ts:239-284` | an execute-mode emit extends the tracker's log by one create call per valid issue and then one edit call per valid edit, in order |
| `LinkLaws.FinalBodyIsLogged` | `packages/cli/src/program-emit-ledger.ts:264-284` | against a tracker whose numbers identify its issues, replaying the whole call log leaves in a filed node's issue exactly the last body accepted for that node |
| `LedgerExamples.LinkIsTakenBack` | `packages/cli/src/program-emit-ledger.ts:264-284` | whatever the ids, goals and budgets: create a program with one epic, give the epic a story, emit all three; the ledger then holds issue 1 for the epic's parent, and the epic's issue 2 no longer starts with `Parent: #1` |
| `LedgerExamples.LinkIsLost` | `packages/cli/src/program-emit-ledger.ts:264-284` | the same at one concrete run of three commands |
| `Kernloop.Kernloop.SeedFiledNumbers` | `packages/cli/src/program-emit-ledger.ts:226-234` | one pass over the listing gathers exactly the resolvable numbers of the nodes already filed |
| `Kernloop.Kernloop.EmitOneNode` | `packages/cli/src/program-emit-ledger.ts:96-123` | the method performs exactly one specified filing step on store and tracker |
| `Kernloop.Kernloop.EmitInOrder` | `packages/cli/src/program-emit-ledger.ts:239-260` | the loop performs exactly the specified filing of the queue |
| `Kernloop.Kernloop.UpdateEpicBodies` | `packages/cli/src/program-emit-ledger.ts:264-284` | the loop sends exactly the specified epic updates |
| `Kernloop.Kernloop.EmitLedgerOp` | `packages/cli/src/program-emit-ledger.ts:357-383` | emit returns the specified report and leaves the specified ledger and call log; a refusal leaves both alone, and so does every emit without the flag or below the enforce tier |
| `CommandLaws.EmitFilesListing` | `packages/cli/src/program-emit-ledger.ts:357-383` | on a well-formed program an emit files exactly the planned listing, in listing order, in execute mode under flag and enforce tier and as a dry run otherwise |
| `CommandLaws.EmitKeepsProgram` | `packages/cli/src/program-emit-ledger.ts:302-346` | an emit keeps the program well formed, keeps its nodes, and moves rows forward only |
| `CommandLaws.ExitZeroMeansDone` | `packages/cli/src/program-emit-ledger.ts:302-346` | exit 0 in execute mode leaves nothing planned, so the next emit files nothing and changes nothing |
| `CommandLaws.DryRunChangesNothing` | `packages/cli/src/program-emit-ledger.ts:347-383` | without the flag, or below the enforce tier, an emit leaves ledger and tracker untouched |
| `CommandLaws.ExecuteNeedsBoth` | `packages/cli/src/tracker-commands.ts:36-45` | an emit that has something to file runs in execute mode exactly with the flag and at the enforce tier |
| `Outcomes.EmitIsAccepted` | `packages/cli/src/program-emit-ledger.ts:302-383` | an emit is refused exactly for a long or unknown id, for more than twenty planned nodes without their exact count confirmed, and for the flag without a tracker |
| `Outcomes.ExitIsExact` | `packages/cli/src/program-emit-ledger.ts:302-346` | an execute-mode emit exits 0 exactly when nothing is left planned and every edit was accepted; a dry run exactly when every issue is valid; otherwise it exits 1 |
| `CommandLaws.AdvancesAreLegal` | `packages/cli/src/program-reconcile.ts:70-83` | every advance reconcile issues is legal, and exactly the nodes read as closed end up done |
| `CommandLaws.ReconcileKeepsProgram` | `packages/cli/src/program-reconcile.ts:144-181` | a reconcile never fails half-way, keeps the program well formed, and moves rows forward only |
| `CommandLaws.SecondReconcileIsIdle` | `packages/cli/src/program-reconcile.ts:144-181` | against unchanged issues a second reconcile advances nothing |
| `Outcomes.ReconcileIsExact` | `packages/cli/src/program-reconcile.ts:144-181` | a reconcile is refused exactly for a long or unknown id or a missing tracker; otherwise it reads each emitted node once, by ascending id, sets exactly the closed ones to done when executing, counts them, and exits 1 exactly on a failed read |
| `Outcomes.RefsAreRead` | `packages/cli/src/program-reconcile.ts:155-157` | whatever the rows, a node is skipped exactly when its ref is missing or empty |
| `Kernloop.Kernloop.ReadStates` | `packages/cli/src/program-reconcile.ts:56-67` | the reads happen once per node, in order, and write nothing |
| `Kernloop.Kernloop.ApplyClosed` | `packages/cli/src/program-reconcile.ts:70-83` | the loop advances exactly the nodes read as closed and counts them |
| `Kernloop.Kernloop.ReconcileOp` | `packages/cli/src/program-reconcile.ts:144-181` | reconcile returns the specified report and leaves the specified ledger |
| `Kernloop.Kernloop.RunVerb` | `packages/cli/src/program-commands.ts:191-235` | every verb of the running program is exactly one step of the state machine below, and keeps the ledger well formed |
| `LedgerRuns.StepKeepsLedger` | `packages/cli/src/program-commands.ts:191-235` | every command, with its own freshly loaded overlay and against any tracker, keeps the ledger well formed and touches one program at most; there each row stays as it is or climbs exactly one rung, and every new row starts planned |
| `LedgerRuns.RunKeepsLedger` | `packages/cli/src/program-commands.ts:191-235` | over any sequence of commands, each under its own overlay, the ledger stays well formed and no row is lost or moved backwards |
| `LedgerRuns.StatesAreAPrefix` | `packages/cli/src/program-store.ts:245-269` | over any run the sequence of rungs a node has been on is a prefix of planned, emitted, done: none is skipped, none revisited, and the last one is where it is |
| `LedgerRuns.BudgetsHoldEverywhere` | `packages/faculty-scrum/src/decompose.ts:127-135` | in every reachable ledger the leaves, and any pairwise non-ancestor nodes, sum within the root's budget on each dimension |
| `EveryLedger.BudgetsInWords` | `packages/faculty-scrum/src/decompose.ts:127-135` | the same with the three sums written out over tokens, usd and minutes |
| `LedgerRuns.NodesDescendEverywhere` | `packages/faculty-scrum/src/decompose.ts:106-179` | in every reachable ledger each non-root node is its existing parent's id plus `.k`, one rung lower unless under the root, at most three levels deep, and inherits its parent's free-form constraints |
| `EveryLedger.NodesInWords` | `packages/faculty-scrum/src/decompose.ts:106-171` | in every reachable ledger a non-root node is its stored parent's id, a dot and a positive number, its altitude is exactly the one below its parent's, and a task has no children |
| `EveryLedger.ContractsInWords` | `packages/faculty-scrum/src/decompose.ts:154-179` | in every reachable ledger no text of a stored contract is empty, every amount of its budget is positive, and the row's goal and labels are what the contract says |
| `LedgerRuns.RungsHoldEverywhere` | `packages/cli/src/program-store.ts:225-269` | in every reachable ledger a node is planned exactly when it has no ref, and every ref is trimmed, non-empty, at most 512 characters, free of control characters and not a non-https URL |
| `EveryLedger.RungsInWords` | `packages/cli/src/program-store.ts:225-269` | the same with the shape of a ref written out |
| `LedgerRuns.ProgressGrows` | `packages/cli/src/program-store.ts:250-256` | a program that changes makes progress: it gains a node or a row moves up |
| `LedgerRuns.LifetimeIsFinite` | `packages/cli/src/program-store.ts:250-256` | with T root tokens at most 9T + 2 steps of any run ever change a program after it exists |
| `FilingRuns.RunFilesWhatItLogs` | `packages/cli/src/program-emit-ledger.ts:96-158` | over any run the createIssue calls in the tracker's log are, one for one and in order, the recorded list of filings with their nodes |
| `FilingRuns.OnlyPlannedNodesAreFiled` | `packages/cli/src/program-emit-ledger.ts:302-346` | over any run every createIssue call in the log, accepted or failed, belongs to one command and is for a node that is planned in the ledger when that command starts |
| `FilingRuns.StartedIsNeverFiled` | `packages/cli/src/program-emit-ledger.ts:302-346` | once a node is emitted or done, by a filing or by a manual advance, no later createIssue call in the log is for it |
| `FilingRuns.RunKeepsFilings` | `packages/cli/src/program-emit-ledger.ts:357-383` | over any run a node whose filing was recorded has left planned, and none is filed after that |
| `FilingRuns.NoSecondFiling` | `packages/cli/src/program-emit-ledger.ts:357-383` | once a createIssue call in the log was recorded in the ledger, no later createIssue call in the log is for that node |
| `FilingRuns.RunAccounting` | `packages/cli/src/program-emit-ledger.ts:302-346` | over any run the successful createIssue calls in the log are as many as the nodes with a recorded issue, all of which left planned, plus the calls filed but not recorded |
| `CallLog.WritesAreEnforced` | `packages/cli/src/tracker-commands.ts:36-45` | over any run every create or edit call in the log was made by an emit with the flag under an overlay at the enforce tier |
| `CallLog.LogIsTruthful` | `packages/tracker/src/provider.ts:195-240` | over any run every entry of the log holds the tracker's own answer at that point, and every issue and body sent was within the provider's limits |
| `FilingRuns.LinksHoldEverywhere` | `packages/cli/src/program-emit-ledger.ts:239-284` | any execute-mode emit of any reachable ledger: every report row is linked as stated above, every task list is exact, and the log grows by exactly the accounted create and edit calls |
| `Addressing.ProgramIdsAreShort` | `packages/cli/src/program-shared.ts:116-122` | in every reachable ledger every program id is within the length limit |
| `Addressing.ReachIsLength` | `packages/cli/src/program-shared.ts:116-122` | in every reachable ledger advance and decompose-node refuse a stored node whatever their other arguments exactly when its id is longer than 256 characters; some advance moves it exactly when its id is not and it is not done |
| `LedgerExamples.ChildIsOutOfReach` | `packages/cli/src/program-shared.ts:116-122` | a program id of 255 or 256 characters is accepted, and its first child is stored and can then be named by no command |
| `LedgerExamples.LongProgram` | `packages/cli/src/program-shared.ts:116-122` | the same at one concrete program |
| `Workshop.Workshop.RegisterTool` | `packages/faculty-toolsmith/src/lifecycle.ts:89-101` | a registered tool is born live at suggest with an empty streak, and its birth is appended |
| `Workshop.Workshop.RecordRun` | `packages/faculty-toolsmith/src/lifecycle.ts:108-124` | a run on a known tool sets its streak and its clock, is appended, and is followed by the automatic promotion exactly at suggest with five clean runs; an unknown tool is refused and nothing changes |
| `Workshop.Workshop.PromoteIfEarned` | `packages/faculty-toolsmith/src/lifecycle.ts:131-151` | the promotion that is owed is applied and appended; otherwise nothing changes |
| `Workshop.Workshop.Promote` | `packages/faculty-toolsmith/src/lifecycle.ts:159-187` | enforce is reached exactly from advisory with a non-blank ratifier, and only the tier changes; each refusal has its own error and changes nothing |
| `Workshop.Workshop.SweepDecay` | `packages/faculty-toolsmith/src/lifecycle.ts:212-224` | a sweep decays every tool exactly as specified, appends one event for each tool that changed, and keeps records and history in step |
| `Workshop.Workshop.RecordRetirement` | `packages/faculty-toolsmith/src/lifecycle.ts:227-242` | retirement removes the record and appends its event |
| `Workshop.Workshop.Retire` | `packages/faculty-toolsmith/src/workshop.ts:95-111` | retirement needs, in this order, a non-blank ratifier, a safe name and a live tool, and then removes exactly that tool; a refusal changes nothing |
| `Workshop.Workshop.Forge` | `packages/faculty-toolsmith/src/forge.ts:149-189` | a tool is installed exactly on a valid birth, a profile equal as data to the ratified one, fewer live tools than the ratified profile's cap and a green test; its record is written out; each refusal has its own error and changes nothing |
| `Workshop.GateFixesCap` | `packages/faculty-toolsmith/src/forge.ts:149-158` | the profile gate passes exactly the profiles that are the ratified one as data, in any member order, and the cap read from such a profile is the ratified one |
| `Workshop.BirthInWords` | `packages/faculty-toolsmith/src/forge.ts:88-113` | a birth is valid exactly with its schema, as a workshop tool at suggest with a generator, named `workshop/` and then lower-case letters, digits and hyphens not starting with a hyphen |
| `Workshop.CapIsTheMember` | `packages/faculty-toolsmith/src/forge.ts:156-158` | the cap is the positive integer under its key in the profile; without one no tool is allowed |
| `WorkshopLadder.SweepIsGentle` | `packages/faculty-toolsmith/src/lifecycle.ts:191-202` | a sweep costs a tool at most one rung, and a second sweep at the same instant costs nothing |
| `ToolHistory.ClocksAreTheHistory` | `packages/faculty-toolsmith/src/lifecycle.ts:89-202` | over any legal history a live tool's birth, last use and last decay are those of its present life in the history: its `Born`, its last `Ran` (or `Born`), its last demotion or proposal |
| `ToolHistory.OnlyIdleToolsDecay` | `packages/faculty-toolsmith/src/lifecycle.ts:191-224` | in any legal history a demotion or removal proposal comes more than thirty days after the tool's last run or birth in the history, and after its last decay |
| `ToolHistory.SweepIsExact` | `packages/faculty-toolsmith/src/lifecycle.ts:191-224` | a sweep decays every tool idle for that long and no other, one rung each, a suggest tool to a proposal once, and the record is what its event replays to |
| `WorkshopLadder.CleanRunsAreTheStreak` | `packages/faculty-toolsmith/src/lifecycle.ts:108-124` | the stored streak is the number of clean runs since the last unclean run, decay or birth in the history |
| `WorkshopLadder.TiersAreEarned` | `packages/faculty-toolsmith/src/lifecycle.ts:126-187` | an advisory tool was promoted on exactly five consecutive clean runs or decayed from enforce; an enforce tool was last promoted by a named ratifier |
| `WorkshopLadder.DecaysAreSpaced` | `packages/faculty-toolsmith/src/lifecycle.ts:191-224` | successive decay or removal events in one life of a tool are more than the window apart, on any clock |
| `WorkshopLadder.IdleEnforceToolLastsThreeWindows` | `packages/faculty-toolsmith/src/lifecycle.ts:204-224` | an idle enforce tool is proposed for removal only more than three windows after its last use |
| `WorkshopLadder.ProposalsStay` | `packages/faculty-toolsmith/src/lifecycle.ts:191-202` | a tool is marked for removal exactly when it was proposed in its present life; later runs do not withdraw it |
| `BriefBudget.FitSection` | `packages/faculty-compiler/src/budget.ts:58-69` | the truncation loop finds what the specified fitter finds |
| `BriefBudget.TokensGrowWithLength` | `packages/faculty-compiler/src/tokens.ts:13-15` | a longer text never costs fewer tokens |
| `BriefBudget.TruncationGrows` | `packages/faculty-compiler/src/budget.ts:29-31` | keeping one more item never shrinks the truncated text, although the notice's numbers may lose a digit |
| `BriefBudget.FitIsOptimal` | `packages/faculty-compiler/src/budget.ts:58-69` | the fitter keeps the longest prefix that fits under the cap, and gives up exactly when neither the full text nor any truncation fits |
| `BriefBudget.FitIsMonotone` | `packages/faculty-compiler/src/budget.ts:58-69` | a larger cap never keeps fewer items |
| `BriefWords.ContentInWords` | `packages/faculty-compiler/src/budget.ts:29-31` | a section that keeps k of n items reads as the first k texts, one a line, and for k < n a last line `[budget: dropped n-k of n items]` |
| `BriefWords.TokensInWords` | `packages/faculty-compiler/src/tokens.ts:13-15` | a text is charged one token per four characters, a part counting as one; it fits a cap exactly when it has at most four characters per token of it |
| `BriefWords.AdmitInWords` | `packages/faculty-compiler/src/budget.ts:75-92` | a draft keeps all its items when they fit, else the longest proper part that fits with its notice; when nothing fits it is passed over for its own cap and ends the brief otherwise |
| `BriefBudget.CollectProvenance` | `packages/faculty-compiler/src/budget.ts:34-45` | the loop collects each source once, in order of first occurrence, then the notice if truncated |
| `BriefBudget.FirstOccurrencesKeepOrder` | `packages/faculty-compiler/src/budget.ts:33-43` | a source stays at the place of its first occurrence, whatever follows |
| `BriefBudget.ProvenanceDuplicates` | `packages/faculty-compiler/src/budget.ts:34-45` | provenance repeats a source exactly when a truncated section keeps an item of the notice's own source |
| `BriefBudget.AssembleSections` | `packages/faculty-compiler/src/budget.ts:75-102` | the greedy loop admits exactly the specified sections |
| `BriefWords.SectionsAreTold` | `packages/faculty-compiler/src/budget.ts:75-102` | every section shows the first k items of a draft of its own, in draft order: name, priority, text and notice as written, its charge, and each source once with the notice's own last |
| `BriefWords.BriefIsTold` | `packages/faculty-compiler/src/budget.ts:75-102` | the brief is the one and only list of sections described draft by draft without the fitter: shown at the longest that fits what is left or its own cap, charged to what is left, passed over, or ending the brief |
| `BriefBudget.BudgetIsHard` | `packages/faculty-compiler/src/compile.ts:27-38` | used never exceeds allotted, and every section is charged its own text and stays within its cap |
| `BriefBudget.LargerTotalKeepsMore` | `packages/faculty-compiler/src/budget.ts:75-102` | a larger total never gives a lexicographically smaller vector of kept counts |
| `BriefBudget.BriefIsItsCounts` | `packages/faculty-compiler/src/budget.ts:75-102` | on non-empty drafts the brief is exactly what its kept counts stand for |
| `BriefBudget.DropsFormASuffix` | `packages/faculty-compiler/src/budget.ts:85-90` | when a draft is excluded and not by its own cap, every later draft is excluded too |
| `BriefBudget.LaterSectionMayShrink` | `packages/faculty-compiler/src/budget.ts:75-102` | a concrete pair of totals where the larger one costs a later section its item |
| `CanonicalJson.SameIntMember` | `packages/faculty-toolsmith/src/profile.ts:58-75` | values that are the same data hold the same integer under every key |
| `Json.PrintIsUnique` | `packages/faculty-toolsmith/src/profile.ts:63-75` | two texts that start with a printed value start with the same value: printing can be read back in one way only |
| `Json.PrintDenotes` | `packages/faculty-toolsmith/src/profile.ts:63-75` | a printed value is a JSON text that stands for exactly that value, escapes, signs, items and defined members included |
| `Json.EscapeIsShortest` | `packages/faculty-toolsmith/src/profile.ts:72` | a character of a string is printed as the shortest text that stands for it, with lower-case hexadecimal digits |
| `Json.QuoteIsUnique` | `packages/faculty-toolsmith/src/profile.ts:72` | a printed string ends where it ends, whatever follows |
| `CanonicalJson.CanonicalIsPrintOfNorm` | `packages/faculty-toolsmith/src/profile.ts:63-75` | a canonical text is the plain print of the value with members sorted and undefined members dropped, at every depth |
| `CanonicalJson.MembersAscend` | `packages/faculty-toolsmith/src/profile.ts:68-71` | the members of an object are printed in strictly ascending key order |
| `CanonicalJson.NormTellsData` | `packages/faculty-toolsmith/src/profile.ts:63-75` | values with the same canonical form are the same data |
| `CanonicalJson.DataFixesNorm` | `packages/faculty-toolsmith/src/profile.ts:58-75` | values that are the same data have the same canonical form |
| `CanonicalJson.CanonicalIsExact` | `packages/faculty-toolsmith/src/profile.ts:58-75` | two values print the same canonical text exactly when they are equal up to the order of object members |
| `Fence.CandidateIsCaptured` | `packages/cli/src/program-author.ts:75-84` | the candidate text is exactly what the preferred match of the fence expression captures (leftmost, with the word, most white space, shortest capture), and the whole answer when nothing matches |
| `Fence.BlockIsCaptured` | `packages/cli/src/program-author.ts:75-84` | after prose without a backtick a fenced block is captured up to the first three backticks in it |
| `JsonArrayScan.PlainAnswerIsScanned` | `packages/cli/src/program-author.ts:75-84` | an answer without a backtick is scanned as it is |
| `JsonArrayScan.ExtractJsonArray` | `packages/cli/src/program-author.ts:83-109` | fence step and scanning loop return what the specified capture and scanner return, both errors included |
| `JsonArrayScan.ExtractionIsExact` | `packages/cli/src/program-author.ts:85-108` | from the candidate a text is returned exactly when it is a bracketed text, brackets inside strings not counting, that starts at the first opening bracket; no-array is reported exactly when there is none |
| `JsonArrayScan.NothingShorter` | `packages/cli/src/program-author.ts:78-109` | nothing shorter that starts a returned text is itself bracketed |
| `JsonArrayScan.PrintedArrayIsExtracted` | `packages/cli/src/program-author.ts:78-109` | a printed JSON array is cut out whole, for any prefix without an opening bracket and any suffix, whatever its strings hold |
| `JsonArrayScan.FencedArrayIsExtracted` | `packages/cli/src/program-author.ts:75-109` | a fenced printed array after prose with any brackets but no backtick is cut out whole exactly when the printed text holds no three backticks |
| `Memory.Memory.RememberFact` | `packages/faculty-memory/src/semantic.ts:61-86` | a fact is written or refreshed in place, keeping its birth date and, when none is given, its confidence; blank provenance and malformed input change nothing |
| `Memory.Memory.RecordOutcome` | `packages/faculty-memory/src/episodic.ts:52-79` | one row per task, replaced in place; malformed input changes nothing |
| `Memory.Memory.ExportMemory` | `packages/faculty-memory/src/export.ts:68-95` | the export lists every row in row order and restores the same memory when imported into an empty one |
| `Memory.Memory.ImportFact` | `packages/faculty-memory/src/export.ts:102-112` | one entry is written with its own timestamps, or refused with the table unchanged |
| `Memory.Memory.ImportMemory` | `packages/faculty-memory/src/export.ts:120-145` | an import writes all of the document or leaves the memory unchanged |
| `MemoryLaws.RememberKeeps` | `packages/faculty-memory/src/semantic.ts:61-86` | a successful write keeps the fact table well formed |
| `MemoryLaws.RememberRefreshes` | `packages/faculty-memory/src/semantic.ts:53-84` | remembering a known fact never duplicates it: it keeps its place and birth date, takes the new provenance, restarts the decay clock, keeps its confidence unless a new one is given, and no other row changes |
| `MemoryLaws.RememberInWords` | `packages/faculty-memory/src/semantic.ts:61-74` | a fact is refused exactly when it is empty or its confidence is outside 0 to 1, and otherwise exactly for a missing or blank provenance |
| `MemoryLaws.RecordKeeps` | `packages/faculty-memory/src/episodic.ts:52-79` | a successful write keeps the trace table well formed |
| `MemoryLaws.RecordInWords` | `packages/faculty-memory/src/episodic.ts:52-79` | an outcome is refused exactly for an empty task, ref or candidate; otherwise its task's row, written out, is set in place or appended, and no other row changes |
| `MemoryLaws.ImportFactIsUpsert` | `packages/faculty-memory/src/export.ts:102-112` | an imported fact replaces the row of its key, timestamps included, except that a missing confidence is taken over |
| `MemoryLaws.ImportIsExact` | `packages/faculty-memory/src/export.ts:120-145` | an import succeeds exactly on a well-formed document without a blank provenance or an empty distill candidate; each error names its cause |
| `MemoryLaws.ImportInWords` | `packages/faculty-memory/src/export.ts:120-145` | every import succeeds or has the first of three errors: malformed document, blank provenance, empty candidate |
| `MemoryLaws.RoundTrip` | `packages/faculty-memory/src/export.ts:68-145` | importing an export into an empty memory restores the same tables, order, timestamps and confidences included |
| `MemoryLaws.FactsLeft` | `packages/faculty-memory/src/export.ts:120-145` | after an import each key holds what its entries leave, old keys keep their places and new ones follow in order |
| `MemoryLaws.FinalFactShape` | `packages/faculty-memory/src/export.ts:102-112` | a key not named keeps its row; another gets its last entry with the last known confidence |
| `MemoryLaws.ImportIsIdempotent` | `packages/faculty-memory/src/export.ts:120-145` | importing a document twice equals importing it once, whatever the memory held and whatever keys the document repeats |
| `MemoryLaws.ImportKeeps` | `packages/faculty-memory/src/export.ts:120-145` | an import keeps a memory well formed |

## Left out

- SQLite, the file system, Docker, `gh` and subprocesses: tables are maps, with a key sequence where row order matters; a transaction is a method that restores the state it began with.
- The two ledger tables are one map from program id to goal and rows; `createdAt`, `updatedAt` and the store's clock are not modelled.
- `Kernloop.Kernloop.EmitLedgerOp`: the report's counts of skipped links and the audit event are left out.
- `Kernloop.Kernloop.RunVerb`: covers create, decompose-node, advance, emit and reconcile; `status`, `list`, `close`, the one-shot `decompose`, emit without `--program`, flag parsing, printing and audit events are left out because they only read, print or repeat a single check.
- `Tracker.IssueTracker.Edit`: binding a ref to the configured repository and reading the ref out of the command's output are part of the tracker's answer, so a ref the provider would refuse counts as a failed call.
- The issue body's JSON payload is a parameter (`Render`): rows hold the contract itself, so the JSON round trip of a stored contract is not modelled.
- `usd` and `wallClockMin` are exact reals, where the original adds floating-point numbers.
- Strings are sequences of characters; the original counts UTF-16 code units, so lengths and key order differ outside the basic plane.
- Zod schemas are the predicates and datatypes their accepted values satisfy; unknown or missing fields cannot be expressed.
- `Json.PrintIsUnique`: numbers are integers; fractions, exponents and non-finite numbers are not modelled.
- SHA-256: the profile gate compares canonical texts, as if the digest never collided.
- `JsonArrayScan.ExtractJsonArray`: parsing and validating the extracted text is left out.
- `Workshop.Workshop.Forge`: generation and the sandboxed test are one boolean answer, and the files written are reduced to the set of installed names; concurrent forges and crashes between two writes are left out.
- `Workshop.Workshop.SweepDecay`: visits tools in an arbitrary order, where the original visits them in insertion order.
- `Workshop.Workshop.Retire`: the target directory's name is not modelled, so neither is a collision of two retirements at the same millisecond.
- `BriefBudget.AssembleSections`: takes the drafts as given; their text formatting and the schema checks around compilation are left out.
- Crashes between filing an issue and recording it: the code is sequential there, and so is the model.
- Memory recall ranking, listings by recency and the decay score are left out: floating-point formulas without a law across calls.
- The routers, the workflow engine, votes, the observer ledger, the MCP server, the workforce twin of decomposition, the claims linter and the extractors are left out: other components, or single checks.
