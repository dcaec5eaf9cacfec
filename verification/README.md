# Brigadier: a verified model of its stateful core

Brigadier runs coding agents: a daemon keeps conversations as event streams, and each project has a
Brain, a versioned graph of what was learned. This project models the parts of it where many
operations touch the same state, and proves what they keep.

**The Brain** (`crates/brain`). A node has a status (fresh, stale, or superseded by a node), a key,
sources with the files they saw, and an embedding. `Writes` says what each write leaves, as functions
of the tables; `BrainGraph.Graph` runs the statements of `write.rs` one by one, with the maps and edge
sets as fields, and every method is proved to leave what the functions say. `Runs` joins the writes
into commands (one transaction each) and runs of commands. On top of that:

- `Invariants`, `Keeping`, `Runs`: what every run keeps. A node is superseded exactly when it names a
  stored node as its successor, and no chain of successors loops; no two current nodes share a kind and
  key; every node has a source; every embedding is that of the text beside it; stale nodes have a reason.
- `Lines`, `History`: without explicit replacements a key's versions are a list. Recording pushes,
  deleting and forgetting remove versions and keep the rest in order, the newest current.
- `Effects`, `Facts`, `Deletions`, `Rules`, `Sources`, `FilesSeen`: what the writes mean in plain terms, next
  to the functions that compute it. Which fields and edges a write leaves; which version is current again
  after a deletion; when two rules, or two sources, are one; which files concern a node.
- `Forgets`: what forgetting removes, for any order of several forgets. `Freshness` and `Twins`: how a
  node becomes a version, how versions go stale, and how a version that is current again compares with
  its twin, the same node had it stayed current. `Retrieve`: finding the current version. `Reachable`:
  runs from an empty Brain that reach the states where the source's words do not hold.
- `Vectors`, `Coherence`, `CacheProtocol`, `Brain`: the vector table refines a map, each command's
  changes bring it up to date, applying them twice is harmless, and so the cache is right in every
  interleaving of the writer, a building reader and a clear.

**Event-sourced state** (`crates/core`). `Boards`, `Shows` and `BoardCache`: a board loaded from part of a
stream against the fold of all of it, and what it shows of the stream. `Projection`: a catalog whose events come in any order. `Ledger` and
`Cleanup`: recording and removing artifacts, with a crash after any step. `Branches`: the branches of a
conversation. `Pump`: merging a session's deltas while the user answers its requests.

**Streams in the daemon** (`crates/daemon`). `Utf8` and `Terminals`: a byte stream cut anywhere becomes
text (RFC 3629; maximal subparts as in section 3.9 of the Unicode Standard). `Feed`: replayed events
spliced with a live broadcast.

**Dates** (`crates/brain/src/format.rs`). `Calendar`: the closed form against counting days by the
Gregorian rules, and the text as section 5.6 of RFC 3339 writes it.

`Chains` and `Wrappers` hold the mathematics both sides need: chains of links in a finite map, and the
first element of a set under an order (`ORDER BY … LIMIT 1`).

How the source's surroundings appear: a clock reading is a parameter `now`; the embedding of a text, the
digest of a rule's content and whether a text is blank are functions in `Outside`, about which nothing is
assumed; one counter gives both the random id and the row id; where a query lists rows in no stated
order, the order is a parameter that may be any listing; what the world answers (an ended process, a
failed read, a late commit) is chosen arbitrarily.

Where the code and its comments differ, the model follows the code, shows a run that reaches the
difference and says exactly when it arises.

- The comment above `current_version` calls a chain of 32 a cycle, but honest histories reach any length
  (`Reachable.LongHistory`), and then a current version is not found (`Reachable.CurrentNotFound`);
  `History.VersionDepth` and `Retrieve.CurrentVersion` say exactly which are found.
- A superseded node is said to be as stale as it was if it is ever current again. It can be stale where the
  same node, had it stayed current, is fresh (`Reachable.StaleNextToFreshTwin`), and fresh where that is
  stale (`Reachable.FreshNextToStaleTwin`); `Twins.RevivedAsTwin` has the exact conditions.
- A refresh can leave a current node with a source of the refreshed work (`Reachable.RefreshRevivesTask`).
  Of the nodes it did not record those are exactly the ones that were versions with such a source
  (`History.RefreshedCarriesTask`).
- A disposal that ended with nothing left is marked again by the next load (`Ledger.DisposalIsForgotten`).
  A reload marks beyond what memory does exactly the owners whose disposal ended and was not asked for
  since (`Ledger.MarkedBeyondMemory`, `Ledger.CrashMarks`).
- An existing process can be missing from the ledger (`Ledger.ProcessMayOutlive`). What exists and is not in
  the log was given up for gone while it existed, or missing at the start, and neither recorded again nor
  ended since (`Ledger.LostSince`).

## Model

| member | source | states |
|---|---|---|
| Chains.NoCycle | crates/brain/src/write.rs:421-436 | in acyclic links no positive number of steps leads from a node back to itself, which is what looking for loops is for |
| Chains.SameEnd | crates/brain/src/retrieve.rs:273-293 | wherever a chain passes, it ends in the same place |
| Chains.Relinked | crates/brain/src/write.rs:421-442 | linking a node to one whose chain does not pass it closes no loop |
| Chains.RelinkedLoops | crates/brain/src/write.rs:421-436 | and linking it to one whose chain does pass it always closes one |
| Chains.Spliced | crates/brain/src/write.rs:303-305 | a copy put between a node and the older versions hanging off it keeps every chain acyclic |
| BrainGraph.Graph.FindExisting | crates/brain/src/write.rs:93-129 | finds the one current node with the kind and key, or for an unkeyed rule the freshest current one with the same content, or none |
| BrainGraph.Graph.RecordNode | crates/brain/src/write.rs:131-255 | the statements of a recording leave the tables, changes and id of a confirmation, a rewrite that keeps history, or an insertion |
| BrainGraph.Graph.AddSource | crates/brain/src/write.rs:257-301 | renews one source with its own files, the last hash of a path listed twice winning, and touches nothing else |
| BrainGraph.Graph.ArchiveNode | crates/brain/src/write.rs:303-366 | the copy takes the text, sources, embedding, history edges and older versions, and reports its vector |
| BrainGraph.Graph.LinkAll | crates/brain/src/write.rs:368-382 | all edges are added, or the list is refused when an end is unknown or a node would link to itself |
| BrainGraph.Graph.RelinkStructure | crates/brain/src/write.rs:384-406 | structural edges of the sources to modules and services give way to the new ones; the other edges stay |
| BrainGraph.Graph.PassesThrough | crates/brain/src/write.rs:421-436 | walking the later node's chain link by link says whether it passes the earlier one |
| BrainGraph.Graph.SupersedeNode | crates/brain/src/write.rs:408-455 | marks, links, copies the current edges and reports the flag, or refuses self-replacement, loops and unknown ends |
| BrainGraph.Graph.CopyCurrentEdges | crates/brain/src/write.rs:457-472 | the edges of the current fact are taken over both ways, none to the node itself |
| BrainGraph.Graph.HandUp | crates/brain/src/write.rs:498-518 | one by one, in any order, doomed versions hand their own versions up past every doomed one; the doomed current nodes are listed |
| BrainGraph.Graph.SettleOne | crates/brain/src/write.rs:539-570 | the latest version is current again with the edges of the fact and the other versions, unless a node that stays holds its key; then that node takes them all |
| BrainGraph.Graph.ReviveHistory | crates/brain/src/write.rs:487-572 | the whole of it leaves the nodes, edges and changes of lifting, unkeying and settling in turn |
| BrainGraph.Graph.DeleteNode | crates/brain/src/write.rs:574-591 | deletes one node after its history moved on, or reports that there is none |
| BrainGraph.Graph.DropUnsupportedNodes | crates/brain/src/write.rs:623-660 | nodes without a source go and are counted; the others show their latest remaining source |
| BrainGraph.Graph.Forget | crates/brain/src/write.rs:599-621 | removes the sources of a session or origin from exactly the nodes that have one, then drops what is unsupported |
| BrainGraph.Graph.ReleaseTask | crates/brain/src/write.rs:662-689 | only current nodes not recorded again lose their support by it |
| BrainGraph.Graph.ChangeFiles | crates/brain/src/write.rs:691-733 | goes file by file; the nodes listed, each once and file after file, are exactly the fresh ones some source of which read one of the files with a content it no longer has |
| BrainGraph.Graph.ExpireNodes | crates/brain/src/write.rs:735-744 | exactly the fresh nodes past their time go stale |
| BrainGraph.Graph.StoreEmbeddings | crates/brain/src/write.rs:754-788 | an embedding is stored only beside the text it was read with, and reported with the node's kind and flag |
| BrainGraph.Graph.SettleRulesNow | crates/brain/src/write.rs:790-854 | missing fold keys are set, and exactly the unkeyed current rules another one says are folded into the keeper of their group, none refused |
| Effects.RewriteKeepsText | crates/brain/src/write.rs:174-217 | new text for a key: rules and choices keep the earlier words, sources and times as a version that says who rewrote it, when and why it was stale; of the other kinds they are lost |
| Effects.ConfirmRefreshes | crates/brain/src/write.rs:143-173 | the same words again leave one node fresh, with this recording's provenance, time and expiry, and its words as they were |
| Effects.InsertIs | crates/brain/src/write.rs:219-252 | a new node is fresh, says what was recorded, and has this one source |
| Effects.FilesAre | crates/brain/src/write.rs:287-300 | a path listed more than once is stored with the content listed last |
| Effects.KeyNames | crates/brain/src/db.rs:293-308 | a key names a node exactly when one current node has it, of whatever kind; with none it is not found |
| Effects.ClearedIs | crates/brain/src/write.rs:386-406 | relinking takes exactly the edges that say a named source contains or depends on a module or service |
| Effects.SupersedeMarks | crates/brain/src/write.rs:437-444 | a replacement marks one node with what replaced it, why and when, and leaves its reason to be stale, its words and every other node |
| Effects.ExpireIs | crates/brain/src/write.rs:735-744 | a fresh node whose time is at or before now is stale from now for its age; no other node changes |
| Effects.RestoredIs | crates/brain/src/write.rs:527-538 | a version made current again keeps its reason and its time, else is stale for its age if its time is over, else fresh |
| Facts.SupersededFacts | crates/brain/src/write.rs:408-472 | after a replacement the edges are those before, the earlier node's fact with the later node in its place, and the one between them; where it was decided and what it replaced stay behind |
| Facts.ArchivedFacts | crates/brain/src/write.rs:322-349 | a rewrite leaves the fact's edges with the node, copies where it was decided to the version and moves what it replaced there |
| Facts.DeletedFacts | crates/brain/src/write.rs:539-591 | after a deletion the other edges stand, each version is joined to what it hangs off, and a version current again has the edges of the deleted node's fact |
| Deletions.DeletionHandsOn | crates/brain/src/write.rs:493-570 | of a deleted node's versions the one replaced last (by time, then by row) decides: another holder of its key takes them all, or it is current again and takes the others |
| Deletions.LatestIsLast | crates/brain/src/write.rs:493-496 | there is exactly one version replaced last, and it is the one the query lists first |
| Rules.FoldKeyIs | crates/brain/src/write.rs:56-81 | only rules have a fold key; the same words give the same one within a conversation's decisions or the project's conventions and contracts, and none is shared between those |
| Rules.RuleFound | crates/brain/src/write.rs:119-129 | an unkeyed rule is found in the current node that says it: fresh first, then updated last, then the newer row; it is new when none does |
| Rules.KeeperIs | crates/brain/src/write.rs:829-833 | of nodes that say one rule a keyed one is kept, else the one a recording finds |
| Rules.SettledRules | crates/brain/src/write.rs:790-854 | with no old rule settling changes nothing; else every rule has its fold key and no unkeyed rule stands beside another current node that says it |
| Sources.SourceIdIs | crates/brain/src/write.rs:258-267 | two recordings are one source exactly when origin, conversation, task and job agree |
| Sources.TwoSessions | crates/brain/src/write.rs:257-301 | a node recorded by two conversations in the same words has both as sources, and forgetting either leaves it with the other |
| Sources.TraceFiled | crates/brain/src/write.rs:257-301 | over any run every source is stored under its own id |
| Sources.SelectsBy | crates/brain/src/write.rs:608-621 | forgetting goes by the conversation, the origin or the task of a source and by nothing else |
| Sources.ListsAre | crates/brain/src/write.rs:612-616 | a forget lists the nodes with such a source; a refresh those of them that are current and not recorded again |
| Sources.ReleaseSpares | crates/brain/src/write.rs:599-689 | a node with no such source is kept by a forget or a refresh with its words, sources and times |
| Sources.ReleaseShows | crates/brain/src/write.rs:645-652 | whoever lost a source shows the one left that was recorded last, then by name |
| FilesSeen.OutdatesIs | crates/brain/src/write.rs:697-724 | a change concerns a node exactly when the contents its sources read the file with are not all the one it has now |
| FilesSeen.FileChanges | crates/brain/src/write.rs:711-729 | one changed or deleted file: who read it as it is stays as it was; others go stale, or as versions take on a reason, saying which file and how |
| FilesSeen.FilesChange | crates/brain/src/write.rs:710-731 | of several files the first one a node saw otherwise is the reason |
| Invariants.ArchiveKeeps | crates/brain/src/write.rs:303-366 | keeping the old text as a version keeps every invariant: one line of history, unique keys, sources, embeddings, edges |
| Invariants.RecordKeeps | crates/brain/src/write.rs:131-255 | so does every recording, confirmed, rewritten or inserted |
| Invariants.ReviveMidway | crates/brain/src/write.rs:490-572 | after reviving, whatever the order, chains are acyclic, keys unique, and only nodes that go still hang off nodes that go |
| Invariants.RevivedUnique | crates/brain/src/write.rs:549-569 | the statement that restores a version leaves no two current nodes with its kind and key |
| Invariants.DropNodes | crates/brain/src/write.rs:626-660 | a deletion deletes exactly the doomed and leaves every other node's kind, key, text and sources as they were |
| Invariants.DropKeeps | crates/brain/src/write.rs:490-572 | a deletion keeps every invariant, even when several versions are revived while other nodes hold their keys |
| Keeping.SupersedeKeeps | crates/brain/src/write.rs:408-455 | an explicit replacement that is not refused keeps every invariant |
| Keeping.SupersedeRefusesLoops | crates/brain/src/write.rs:418-436 | between two stored nodes it is refused exactly when the new link would close a loop |
| Keeping.ReleaseKeeps | crates/brain/src/write.rs:599-660 | taking sources away keeps every invariant, every node left with a source |
| Keeping.ForgetExactly | crates/brain/src/write.rs:599-621 | forgetting removes exactly the nodes no other source supports, leaves the others exactly their other sources, and returns how many went |
| Keeping.FilesChangedKeeps | crates/brain/src/write.rs:691-733 | marking files keeps every invariant, a reason standing exactly with staleness |
| Keeping.SetEmbeddingsKeeps | crates/brain/src/write.rs:754-788 | whatever was written since a batch was read, storing it leaves every embedding beside its own text |
| Keeping.FoldAllKeeps | crates/brain/src/write.rs:829-852 | folding rules keeps every invariant and is never refused, as a keeper stays current to the end |
| Runs.AttemptKeeps | crates/brain/src/lib.rs:571-755 | every command of a Brain that commits keeps every invariant |
| Runs.Run | crates/brain/src/schema.rs:107-108 | after any run from an empty Brain the partial unique index holds, chains are acyclic and end in stored nodes, nodes are supported, embeddings honest |
| Runs.TraceValid | crates/brain/src/db.rs:65-84 | and so at every state of any run from tables that keep the invariants, refused commands included |
| Lines.DropLine | crates/brain/src/write.rs:487-572 | deleting any set of nodes takes them out of a rule's line and leaves the others hanging in order, the newest current |
| Lines.ArchiveLine | crates/brain/src/write.rs:303-305 | a rewrite puts the old text right behind the head of the line |
| History.RecordTells | crates/brain/src/write.rs:131-255 | a recording pushes new text on its key's list, only adds its source when the text is the same, and leaves every other list |
| History.DropTells | crates/brain/src/write.rs:574-660 | a deletion leaves the list without the versions that go |
| History.ForgetTells | crates/brain/src/lib.rs:667-698 | forgetting filters the list to the versions another source supports, in order, each with exactly its other sources |
| History.RefreshTells | crates/brain/src/write.rs:662-689 | a refresh takes its sources from the head alone, which goes if nothing else supports it |
| History.RefreshedCarriesTask | crates/brain/src/write.rs:662-689 | in the tables after a refresh, keyed or not, a current node it did not record has a source of that work exactly when it was a version before and had one |
| Reachable.RefreshRevivesTask | crates/brain/src/write.rs:673-688 | recording a rule in two wordings and refreshing with neither leaves the first wording current, still with that work's source |
| History.StepTells | crates/brain/src/lib.rs:571-755 | what each command without explicit replacement does to the list |
| History.RunTells | crates/brain/src/lib.rs:571-755 | over any run of them the tables hold exactly the list the steps give: words, sources, order and one current head |
| History.RewritingPushes | crates/brain/src/lib.rs:600-604 | new text for a rule is pushed in front of its history |
| History.DeletingPops | crates/brain/src/lib.rs:660-665 | deleting the current version pops it |
| History.DeletingUndoesRewriting | crates/brain/src/lib.rs:660-665 | deleting a rule just rewritten brings back what it said, with its sources |
| History.VersionDepth | crates/brain/src/retrieve.rs:279-292 | a version is as many replacements from its current one as there are newer versions |
| Reachable.LongHistory | crates/brain/src/retrieve.rs:273-293 | for every n some run of plain recordings from an empty Brain gives a rule a history of n versions |
| Reachable.CurrentNotFound | crates/brain/src/retrieve.rs:273-293 | so some run leaves a stored node 32 or more replacements from its current version, which is then not found though no chain loops |
| History.EmptyTells | crates/brain/src/lib.rs:571-755 | an empty Brain has no history to tell, from which every run's histories start |
| History.FirstRecording | crates/brain/src/write.rs:219-252 | the first recording of a key starts its list |
| Forgets.ForgetAllExactly | crates/brain/src/lib.rs:681-698 | several forgets in one write keep exactly the nodes some other source supports and count the ones gone |
| Forgets.ForgetOrderIrrelevant | crates/brain/src/lib.rs:681-698 | the same forgets in any order, repeated or not, leave the same nodes with the same sources |
| Freshness.ExecAges | crates/brain/src/write.rs:437-442 | one command gives a version a reason to be stale only from a changed file it saw, and restores one as its reason and expiry say |
| Freshness.VersionAges | crates/brain/src/write.rs:704-709 | over a run, a version has a reason exactly when it had one at first or its files changed since |
| Freshness.RevivedFreshness | crates/brain/src/write.rs:527-538 | a version current again is stale exactly when it had a reason to be, its files changed since, or its time is over by then |
| Twins.BecomesVersion | crates/brain/src/write.rs:303-321 | however a node becomes a version (a replacement, folding, or the copy a recording or refresh keeps), it is made of one node current till then, has a reason exactly when that was stale, and its expiry |
| Twins.TwinState | crates/brain/src/write.rs:691-744 | a node that stayed current would be stale exactly when it was at first, its files changed, or nodes were expired past its time |
| Twins.RevivedAsTwin | crates/brain/src/write.rs:437-538 | over any run, from when the node was last current to when it is current again: it is stale exactly when it was then, its files changed or its time is over; when it agrees with its twin, and with its twin expired by then, in terms of what went before |
| Reachable.StaleNextToFreshTwin | crates/brain/src/write.rs:437-538 | three commands from an empty Brain after which a version current again is stale and its twin fresh |
| Reachable.FreshNextToStaleTwin | crates/brain/src/write.rs:735-744 | four after which it is fresh and its twin stale, nodes having been expired for a later time |
| Retrieve.CurrentVersion | crates/brain/src/retrieve.rs:273-293 | finds the end of a stored node's chain exactly when it is fewer than 32 replacements away, and otherwise nothing |
| Chains.DepthEnds | crates/brain/src/retrieve.rs:279-292 | the end of a chain is as many links away as the chain is deep |
| Retrieve.OneCurrentEnd | crates/brain/src/retrieve.rs:273-275 | at every state of any run from tables that keep the invariants every node's chain ends in one stored current node and passes no other |
| Vectors.Table.SetVector | crates/brain/src/vectors.rs:82-109 | in the parallel arrays, sets exactly one id's kind, flag, scale and values, or drops it when the blob does not decode |
| Vectors.Table.RemoveRow | crates/brain/src/vectors.rs:111-127 | swap-remove over all the arrays and the index removes exactly one id from the map they stand for |
| Vectors.Table.ApplyChanges | crates/brain/src/vectors.rs:129-166 | any changes in turn do to the arrays what they do to a plain map |
| Vectors.AppliedTwice | crates/brain/src/vectors.rs:178-180 | applying a batch to what it was applied to already changes nothing |
| Vectors.DecodesStored | crates/brain/src/vectors.rs:31-49 | a stored vector is read back with the same scale and every value in its place |
| Vectors.StoredDecodes | crates/brain/src/vectors.rs:40-49 | every blob of 516 bytes is the stored form of what is read from it, and no other blob is read |
| Coherence.ExecComplete | crates/brain/src/lib.rs:571-591 | every command reports a complete change list: applied to the vectors before it, it gives the vectors after it |
| Coherence.ViewIs | crates/brain/src/vectors.rs:183-215 | a node has a vector exactly when it has an embedding by the current model of that length: its kind, whether it is a version, and the vector the embedding stores |
| CacheProtocol.AlwaysCoherent | crates/brain/src/vectors.rs:154-223 | from any opened Brain, migrated ones included, in every interleaving of commit, apply, build, failed build and clear, the cache with the batch still waiting is the database's vectors |
| CacheProtocol.SettledCacheIsExact | crates/brain/src/db.rs:65-84 | a built cache with nothing waiting is exactly the database's vectors, kinds and flags |
| CacheProtocol.NeverStuck | crates/brain/src/vectors.rs:154-223 | wherever a run stands, what is left to do can be done, and ends with a built cache that is exactly the database's vectors |
| CacheProtocol.BuildsFromRead | crates/brain/src/vectors.rs:129-223 | a build ends with the rows it read; a batch without changes is applied without waiting for the lock |
| Brain.Handle.BuildTable | crates/brain/src/vectors.rs:178-223 | building row by row gives exactly the stored vectors of the current model |
| Brain.Handle.EnsureVectors | crates/brain/src/vectors.rs:180-223 | afterwards the cache is built and exact, one already built kept |
| Brain.Handle.ClearVectors | crates/brain/src/vectors.rs:169-176 | dropping the cache touches nothing stored |
| Brain.Handle.Commit | crates/brain/src/lib.rs:571-591 | committing and then applying the changes leaves a built cache exact |
| Brain.Handle.Record | crates/brain/src/lib.rs:605-610 | a blank title or key is refused; otherwise the command's tables and the id recorded, with the cache current |
| Brain.Handle.RecordReplacing | crates/brain/src/lib.rs:643-658 | both the recording and the replacement happen and the id is the recorded one, or neither happens and the refusal is the command's |
| Brain.Handle.ForgetOrigins | crates/brain/src/lib.rs:681-698 | one transaction over all origins, with the number of nodes gone |
| Brain.Handle.RefreshTask | crates/brain/src/lib.rs:700-731 | records, links and releases in one transaction and returns the ids in the items' order, or changes nothing and returns the command's refusal |
| Brain.Handle.Link | crates/brain/src/lib.rs:622-626 | all edges in one transaction, or none and the refusal; the cache is untouched |
| Brain.Handle.RelinkStructure | crates/brain/src/lib.rs:628-633 | clears and links in one transaction, or neither |
| Brain.Handle.Supersede | crates/brain/src/lib.rs:635-642 | the replacement and its flag in the cache, or the command's refusal and nothing |
| Brain.Handle.Delete | crates/brain/src/lib.rs:660-665 | the deletion with the history handed on, tables and cache together, or not found and nothing |
| Brain.Handle.ForgetSession | crates/brain/src/lib.rs:667-679 | the nodes only this session supports go, in one transaction, with their number |
| Brain.Handle.ChangeFiles | crates/brain/src/lib.rs:744-750 | marks the files in one transaction and returns the nodes that went stale, once each |
| Brain.Handle.Expire | crates/brain/src/lib.rs:752-755 | returns how many nodes went stale for their age |
| Brain.Handle.SetEmbeddings | crates/brain/src/lib.rs:757-800 | stores a batch in one transaction, the cache following, and returns how many took it |
| Brain.Handle.SettleRules | crates/brain/src/lib.rs:530-540 | settles old rules in one transaction, as opening does before there is a cache; the cache would follow too |
| Calendar.DateIsCounted | crates/brain/src/format.rs:199-212 | for every millisecond before or after 1970 the closed form is a real date, and the one counting days from 1 January 1970 reaches |
| Calendar.StepsOn | crates/brain/src/format.rs:202-211 | from each day to the next the closed form steps as the Gregorian calendar does |
| Calendar.LaterTimes | crates/brain/src/format.rs:199-212 | a later time never has an earlier date, and the same date only on the same day |
| Calendar.FullDate | crates/brain/src/format.rs:211 | in the years 0 to 9999 the text is the ten places of a full-date and reads back as the date |
| Calendar.EveryDate | crates/brain/src/format.rs:211 | in every year, a negative one too, the text reads back as the date |
| Utf8.CharIs | crates/daemon/src/terminals.rs:328-334 | bytes read as a character are the encoding of a scalar value |
| Utf8.EncodedFront | crates/daemon/src/terminals.rs:328-333 | and every encoded scalar value is read as one character whatever follows |
| Utf8.CutIs | crates/daemon/src/terminals.rs:337-341 | bytes read as cut are a proper beginning of a character |
| Utf8.BadIs | crates/daemon/src/terminals.rs:342-345 | bytes read as bad are a maximal subpart: a beginning the next byte breaks off, or one byte no character begins with |
| Utf8.MaximalIsBad | crates/daemon/src/terminals.rs:342-345 | and every maximal subpart is read as bad, with its length |
| Terminals.Utf8Stream.Push | crates/daemon/src/terminals.rs:322-350 | the loop ends and returns the text and pending bytes of the bytes so far |
| Terminals.ChunksJoin | crates/daemon/src/terminals.rs:316 | pushing a then b gives the text and pending bytes of pushing both at once |
| Terminals.ChunkingIrrelevant | crates/daemon/src/terminals.rs:316 | so does any way of cutting a stream up |
| Terminals.PendingIsStart | crates/daemon/src/terminals.rs:337-341 | what is pending is the beginning of a character at the end of the input, at most 3 bytes |
| Terminals.WellFormedUnchanged | crates/daemon/src/terminals.rs:329-333 | well-formed input comes out unchanged with nothing pending |
| Terminals.MaximalReplaced | crates/daemon/src/terminals.rs:342-345 | a maximal subpart comes out as one U+FFFD between the text before and after it |
| Terminals.StartStays | crates/daemon/src/terminals.rs:337-341 | a cut character stays pending and the text before it comes out |
| Terminals.TextWellFormed | crates/daemon/src/terminals.rs:323-350 | whatever the bytes, the text is well-formed |
| Terminals.Terminal.PumpOutput | crates/daemon/src/terminals.rs:234-270 | what is sent joins to the text of the whole output, no piece empty, and the scrollback is the tail of that text |
| Terminals.TailOfMore | crates/daemon/src/terminals.rs:251-260 | keeping the tail piece by piece keeps the tail of the whole |
| Terminals.TailFits | crates/daemon/src/terminals.rs:254-260 | the scrollback is well-formed, at most 256 KiB, a suffix, and drops at most 3 bytes more than it must |
| Feed.Store.ReadSince | crates/store/src/reader.rs:117-123 | a page of the events after a cursor at some later state of the log, in order, or a failure |
| Feed.Session.Subscribe | crates/daemon/src/server.rs:544-583 | replays exactly the committed events above `after` up to `lastSent`, whatever is committed meanwhile; then it is live from where the broadcast stood on entry, or, exactly when 10,000 events were replayed, cut off at `lastSent`; a failed read leaves feed and cursor, and the events sent till then are again exactly those up to some cursor |
| Feed.Session.TakeNext | crates/daemon/src/server.rs:274-289 | a live event is delivered unless it was replayed; a client too far behind is cut off with `resumeAfter` where delivery stopped |
| Feed.Session.Follow | crates/daemon/src/server.rs:282-287 | subscribing again from `resumeAfter` whenever cut off, a client is sent exactly the events above its cursor, in order and once |
| Feed.BetweenIs | crates/daemon/src/server.rs:544-547 | the delivered slice holds exactly the log's events in the interval, in ascending order |
| Feed.NothingMissed | crates/daemon/src/server.rs:544-547 | once the feed is at the end of the log, every event above `after` was delivered |
| Pump.Session.Run | crates/core/src/runtime.rs:1095-1151 | for any events and window ends, the user answering at any moment: what is stored from the CLI joins to what it said up to its first exit, progress aside; no answer comes before or more often than its requests; the waiting requests are those put to the user, neither resolved by the CLI nor answered |
| Pump.Session.Handle | crates/core/src/runtime.rs:1154-1180 | stores one event of the CLI and nothing else of it, and keeps the waiting requests and answers right, whatever the user answers meanwhile |
| Pump.Session.RouteApproval | crates/core/src/runtime.rs:1182-1227 | a request either waits for the user with nothing stored, or the policy answers it, and exactly that answer is stored if the CLI took it, whatever the user answers meanwhile |
| Pump.Session.BeginAnswer | crates/core/src/runtime.rs:786-807 | the user's answer is taken, and is on its way, exactly when the request waits, which then it no longer does |
| Pump.Session.EndAnswer | crates/core/src/runtime.rs:808-823 | once delivered the answer is stored with the user as its author; otherwise nothing is |
| Pump.AnswerHasRequest | crates/core/src/runtime.rs:1182-1227 | before every stored answer stands a request of the CLI with its id that was its author's to answer |
| Pump.Gather | crates/core/src/runtime.rs:1354-1382 | a delta joins the one before exactly when both continue the same item of the same kind |
| Pump.LastMerged | crates/core/src/runtime.rs:1113-1118 | merging into the waiting deltas and storing those later is merging into the whole |
| Pump.JoinKeeps | crates/core/src/runtime.rs:1354-1382 | joining loses no text of any item and no other event, and keeps their order |
| Pump.JoinIsJoined | crates/core/src/runtime.rs:1354-1382 | and leaves no two deltas of one item and kind side by side |
| Pump.JoinCuts | crates/core/src/runtime.rs:1354-1382 | joining cuts the events, in order, into single events and runs of deltas of one item, each run its text in turn |
| Branches.BranchOf | crates/core/src/sessions.rs:1814-1839 | with any parent links the walk ends and returns the messages at the positions of the leaf's branch, none for an unknown leaf |
| Branches.BranchFollows | crates/core/src/sessions.rs:1814-1815 | positions grow strictly, each message follows the one before it, the first follows none, the last is the leaf |
| Branches.AboveIsParent | crates/core/src/sessions.rs:1804-1813 | with distinct ids, the older message shown before another is the one it names as parent |
| Branches.BranchPrefix | crates/core/src/sessions.rs:1814-1839 | the branch of any message on a branch is the beginning of that branch up to it |
| Branches.BranchesFork | crates/core/src/sessions.rs:1814-1839 | the branches of any two leaves share a beginning and nothing after it |
| Branches.AddingKeepsBranches | crates/core/src/sessions.rs:1814-1839 | appending messages with new ids changes no branch there is |
| Boards.LoadAgrees | crates/core/src/sessions.rs:1429-1485 | a board loaded from the listed kinds and the newest message agrees with the fold of the whole stream on everything but run, its request and what streams, the head included |
| Boards.LoadThenApply | crates/core/src/sessions.rs:1071-1091 | loading after any prefix and applying the rest agrees with loading at the end |
| Boards.HeadIsLast | crates/core/src/board.rs:218-221 | the head is the last message appended or branch switched to |
| Boards.FirstPosition | crates/core/src/board.rs:114-160 | each task, card and compaction shows its last content at the place of its first event, and none is shown that was not recorded |
| Boards.NewestNotices | crates/core/src/board.rs:221-226 | the notices are the newest 20, in order |
| Boards.LatestMemories | crates/core/src/board.rs:175-188 | memories are listed once each, in the order first saved, with the text of their latest change |
| Shows.ShowsLast | crates/core/src/board.rs:151-213 | requests, ratings, overnight runs, what waits for the user, the queue and the run are as the last event about them said |
| Shows.ListedForGood | crates/core/src/board.rs:195-201 | a key stays listed once anything waited under it, resolved or not |
| Shows.StepsInOrder | crates/core/src/board.rs:165-194 | every worker step, orchestrator step and decision is listed once, in stream order, at its place |
| Shows.StreamsLast | crates/core/src/board.rs:227-255 | what streams is the message whose deltas came last and nothing stopped, with all its text since they began and the request that ran then; nothing streams exactly when every delta was stopped |
| BoardCache.Board.Apply | crates/core/src/board.rs:114-256 | applying an event field by field leaves exactly the folded board |
| BoardCache.Board.Remember | crates/core/src/board.rs:176-187 | a known memory is changed where it is, a new one goes to the end |
| BoardCache.ReadListed | crates/core/src/sessions.rs:1430-1453 | paging newest first reads every listed event once, newest first |
| BoardCache.LoadBoard | crates/core/src/sessions.rs:1429-1485 | paging, folding back, setting the head and resting give the loaded board |
| BoardCache.Conversation.RecordWithBoard | crates/core/src/sessions.rs:1069-1091 | whether the board was loaded now or kept for long, it agrees with loading it after the events |
| Projection.Projection.Apply | crates/core/src/projection.rs:24-132 | an event changes exactly the fields it names, and those only when no newer event set them |
| Projection.Projection.Latest | crates/core/src/projection.rs:154-162 | notes the newest writer and says whether this is it |
| Projection.HighestWins | crates/core/src/projection.rs:14-21 | whatever the order, creations first, who is there is decided by creation and removal, and each field is the one of its highest event |
| Projection.OrderIrrelevant | crates/core/src/projection.rs:14-21 | the same events in any two such orders give the same projects, conversations, titles, pins, setups, lifecycles and settings |
| Projection.LastActivity | crates/core/src/projection.rs:134-138 | when times grow with the log, last activity is the latest of all events about the conversation |
| Projection.OrderIrrelevantActivity | crates/core/src/projection.rs:134-138 | and so is the same in any order |
| Ledger.StepKeeps | crates/core/src/ledger.rs:135-155 | each step of recording, creating, removing and disposing, and a crash, keeps the log, memory and world in agreement |
| Ledger.StepsAreOpen | crates/core/src/ledger.rs:134-219 | a crash, an artifact gone by itself and a request can come at any time; recording, creating, removing and ending a disposal when nothing they depend on is under way |
| Ledger.StrikesWhatEnded | crates/core/src/ledger.rs:330-433 | what a removal under way will strike is exactly what it ended, and the processes it tried to end, since it started |
| Ledger.AskedSince | crates/core/src/ledger.rs:192-219 | what counts as asked for is what a disposal was requested for and none ended since |
| Ledger.CrashLosesNothing | crates/core/src/ledger.rs:79-114 | after a crash at any step of any run, with overlapping removals and recordings, reloading holds every artifact that still exists (processes aside) and marks every requested disposal; it holds exactly what memory held and what was being recorded, but for what was stored as gone |
| Ledger.MarkedUntilCompleted | crates/core/src/ledger.rs:100-106 | a reload marks an owner exactly when its disposal was requested and not completed since |
| Ledger.EndedIsMarkedAgain | crates/core/src/ledger.rs:215-217 | an ended disposal is forgotten by memory and marked again after a crash |
| Ledger.MarkedBeyondMemory | crates/core/src/ledger.rs:192-219 | at any moment of any run the log marks an owner memory neither marks nor is about to exactly when its disposal ended and no request or crash came since |
| Ledger.CrashMarks | crates/core/src/ledger.rs:79-114 | so a crash leaves marked exactly those owners besides the ones marked or about to be |
| Ledger.DisposalIsForgotten | crates/core/src/ledger.rs:192-219 | a request and its end, from an empty ledger, leave an owner the log marks and memory does not |
| Ledger.ProcessMayOutlive | crates/core/src/ledger.rs:341-348 | a run from an empty ledger to a process that exists and that neither the log nor memory holds |
| Ledger.LostSince | crates/core/src/ledger.rs:330-433 | at any moment of any run, what exists and is not in the log is exactly what was stored as gone while it existed, or was missing at the start, and was neither recorded nor ended since; only processes are |
| Cleanup.Load | crates/core/src/ledger.rs:79-107 | folding page by page gives what the stream holds, without empty owners |
| Cleanup.CleanupLedger.Record | crates/core/src/ledger.rs:134-155 | records durably, once |
| Cleanup.CleanupLedger.Remove | crates/core/src/ledger.rs:330-433 | strikes, in one entry of the log and in memory, what is gone and every process; one provider's files go together; the rest is kept; there is no failure exactly when all of it went |
| Cleanup.CleanupLedger.Dispose | crates/core/src/ledger.rs:192-219 | logs the request once, then what went of the processes, then of the files; the owner stays marked exactly while something is left; without failures nothing is; other owners are untouched |

## Left out

- SQLite, migrations, FTS5 and ranking: tables are maps and sets; cascades and the unique index are stated constraints.
- Floating point: quantization, cosine similarity and rank fusion; a scale is four opaque bytes.
- SHA-256 and text normalization: a rule's digest is an arbitrary function. That unkeyed current rules never share a fold key is not claimed: reviving can bring one back beside another.
- Fold keys after a session changes: a confirmed decision keeps the key of its earlier session, as in the code; nothing is proved about such keys.
- Columns copied from a provenance (origin, session, task, job): they are read from it; a value serialized twice is stored once.
- The transcript rows that forgetting a session deletes, and reading and chunking the nodes to embed: any batch of texts with their own embeddings is allowed.
- Panics on the writer thread and poisoned locks, where `unwrap_or_else` takes the value as it is.
- BrainGraph.Graph.HandUp: the order in which one node's versions are handed up, since each gets the same link.
- Retrieve.CurrentVersion: reads one snapshot; the code's up to 32 statements can have commits between them.
- Sources.SourceIdIs: names that hold a `|`, which can make one source of two (`Sources.BarsCollide`); the names stored are generated ids.
- Twins.RevivedAsTwin: compares whether the two are stale, not the words of the reason or since when.
- Feed.Session.Subscribe: a failed write to the client ends the connection and is not modelled.
- Feed.Store.Await: streams deleted from the store; the log only grows.
- Terminals.Terminal.PumpOutput: reaping the shell, its exit message and the broadcast's own capacity.
- Pump.Session.Run: appends that fail; the events in them are lost with a warning. That the session is no longer live after the pump, so that late answers are refused. How long the window is open does not matter, so it ends at any moment it is open.
- Boards.LoadAgrees: events that do not decode, which fail the load.
- Branches.AddingKeepsBranches: says nothing of messages that reuse an id; the newer one then hides the older.
- Projection.OrderIrrelevant: a conversation's fallback and quota wait have no sequence guard, so their order does matter.
- Ledger.CrashLosesNothing: recording an artifact while it is being removed (recordings may overlap each other, and so may removals), and appends that fail.
- Cleanup.CleanupLedger.Remove: how each artifact is removed; success is arbitrary. Calls run one at a time here; `Ledger` has their interleavings.
- Message text, approvals policy, session start and stop, git, process killing, dictation, downloads, metrics, storage scanning and the IPC requests: input and output, or data declarations.
- Answer formatting (`answer`, `cut`) and paging (`capped`): byte budgets and counts that touch no shared state.
- Transcript snippets: not claimed for all Unicode text.
