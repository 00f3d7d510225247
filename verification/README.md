# Mneme: a verified model

Mneme is a service that stores documents, extracts memory entries from them, relates documents by shared memories,
answers questions in chat sessions and delivers answers over messaging channels. This project models the parts of it
whose correctness rests on more than one function, and proves what they promise. `dafny verify dfyconfig.toml` checks it.

| module | models |
|---|---|
| `RelatedDocuments`, `RelatedIndex`, `RelatedMeaning`, `RelatedProjection` | related-document edges: the pairwise definition, the inverted index that computes them, what they say of the entries, the stored copy and its reads |
| `ContextGovernance`, `BoundedSummary`, `HistoryContext`, `ConversationContext` | the context of a chat turn under a token budget, and the summary and watermark kept across turns |
| `FolderTree`, `FolderOperations`, `FolderViews` | the folder tree: reachability, the operations as a service over parent pointers, and its three views |
| `ChannelDelivery`, `DeliveryProtocol`, `MessageSplit` | the delivery row, the protocol of its workers, and splitting an answer into messages |
| `RetrievalMetrics`, `GraphRag` | ranking metrics, and graph-assisted retrieval compared with plain retrieval |
| `MemoryGovernance`, `CircuitBreaker`, `SectionSplit`, `HashBackfill` | grouping of memories, the breaker, splitting a document into sections, content hashes and duplicates |
| `Sorting`, `Text`, `Wrappers` | stable sorting, filtering, enumeration of sets; Python string operations; optional values |

What is open in the model - text normalisation, rounding to four digits, sanitising, relation classification, the heading
pattern, file digests, replies of a channel, the position discount of NDCG - is a parameter of the functions that use it,
and every result holds for any such parameter, or for any that meets the stated condition.

## Where a promise fails

The code is modelled as it is; for each failure there is an input that shows it, and where it has one the exact condition
under which the promise holds.

- An assembled context never exceeds its token budget (tests/test_context_governance.py:260-274): it can, by exactly one
  token, that of the newline between critical text and summary. `PrepareConversation` states exactly when,
  `GuardsAgainstExcess` what rules it out, and `BudgetExceeded` is a call that does it.
- Each part is delivered once: not if a failure hides what was sent, a worker dies after sending, or another takes over
  while it still sends (`CanHarmIffRisky`, `UncountedFailureDuplicates`, `ExpiredLeaseDuplicates`).
- Section paths are chains of enclosing headings: not where levels are skipped (`PathsExactIff`, `SkippedLevelMisplaces`).
- Adding graph contexts never makes retrieval worse: true of recall and MRR, not of NDCG (`GraphLowersNdcgIff`,
  `GraphCanLowerNdcg`).
- A duplicate always points to a canonical document: not after that document was deleted (`DeletionKeepsValidIff`,
  `DeletedCanonicalStrands`).

## Model

| member | source | states |
|---|---|---|
| RelatedIndex.BuildRelatedEdges | app/mneme/domains/graph/service.py:143-287 | The index, expansion, scoring, filtering, sorting and cutting loops return edges of the pairwise definition that meet both thresholds, ranked from one; the scores do not grow along the list, nor on equal scores the shared counts, nor on equal counts the similarities, and on full ties the identifiers grow; an edge that meets the thresholds is missing only if the cap is used up, and then none that is returned ranks behind it |
| RelatedDocuments.CatalogIsFirstBest | app/mneme/domains/graph/service.py:152-171 | A document's signatures are exactly those its entries mention under a non-empty name, each represented by the first of its most important entries |
| RelatedIndex.CollectCatalogs | app/mneme/domains/graph/service.py:154-171 | The entry loop keeps one catalogue per known document with any signature and none for other documents |
| RelatedIndex.InvertCatalogs | app/mneme/domains/graph/service.py:173-176 | The posting list of a signature holds each document that has it exactly once, with its payload |
| RelatedIndex.FillBuckets | app/mneme/domains/graph/service.py:178-216 | After all posting lists, a pair has a bucket exactly if it shares a signature, and the bucket's count, types, maximum and total are those of the set of shared signatures, in whatever order the lists are walked |
| RelatedIndex.CombinationsArePairsOf | app/mneme/domains/graph/service.py:182-186 | Sorted combinations list each unordered pair of linked documents once, smaller identifier first |
| RelatedIndex.ScoredEdgeIsPairwise | app/mneme/domains/graph/service.py:225-250 | The edge computed from a bucket and two catalogue sizes is the pairwise edge: exact union size, mean of the larger importances, same score |
| RelatedMeaning.RelatedIffShared | app/mneme/domains/graph/service.py:152-186 | Two documents are related exactly if some signature is mentioned under a non-empty name in both |
| RelatedMeaning.RelatedTells | app/mneme/domains/graph/service.py:220-274 | What a returned edge says, from the entries alone: the number of shared signatures, the share they are of all and of the smaller document's, the mean and the maximum of their greatest importances, the weighted score of these, types, names and knowledge bases, and shown memories of distinct shared signatures, each that of its leading mention |
| RelatedDocuments.ScoreInUnitInterval | app/mneme/domains/graph/service.py:229-247 | For importances in [0, 1] the unrounded score of a pair lies in [0, 1] |
| RelatedDocuments.RelatedScoresInUnitInterval | app/mneme/domains/graph/service.py:229-247 | The same from the entries: if all importances lie in [0, 1], so does the score of every related pair |
| RelatedIndex.AnnotateRanks | app/mneme/domains/graph/service.py:137-140 | Writes ranks 1, 2, ... into the edges and changes nothing else |
| Sorting.StrLessMeans | app/mneme/domains/graph/service.py:276-284 | Identifiers compare at the first character in which they differ, and a proper beginning comes first |
| RelatedProjection.KbTable | app/mneme/domains/graph/projection.py:302-308 | Restricting the user-wide pairs to documents of one knowledge base gives the pairs computed from that knowledge base alone |
| RelatedProjection.StoredReadAgrees | app/mneme/domains/graph/query.py:48-63 | Reading the stored copy for one knowledge base, filtering and then truncating gives the edges of a direct computation with the same thresholds, in the same order, for every score threshold that is not negative, as requests demand (app/mneme/domains/graph/router.py:67, 132, 248) |
| RelatedProjection.StoredReadIsDirect | app/mneme/domains/graph/query.py:48-63 | The same for any threshold at all, with a negative one counting as 0, because nothing with a negative score is stored |
| RelatedProjection.GraphStore.Rebuild | app/mneme/domains/graph/projection.py:285-346 | Replaces the relationships of the user's documents by those with at least one shared signature and score at least 0; the relationships of others stay |
| RelatedProjection.GraphStore.ReplaceOwned | app/mneme/domains/graph/projection.py:310-346 | Deleting and merging leaves exactly the others' relationships and the new ones whose two documents exist |
| RelatedProjection.GraphStore.ReadKnowledgeBase | app/mneme/domains/graph/query.py:316-326 | Returns the relationships inside one knowledge base that meet both thresholds, best score first, then most shared, then most similar, then by identifiers; one that meets them is missing only if the cap is used up, and then none that is returned ranks behind it |
| RelatedProjection.GraphStore.RebuildAndRead | app/mneme/domains/graph/query.py:316-390 | A rebuild followed by a read of any knowledge base returns what a direct computation on it with the same thresholds returns, unless the score threshold is negative, which counts as 0 |
| ContextGovernance.AssembleCriticalContext | app/mneme/memoria/context_governance.py:88-158 | The loop computes the fold of the ordered sources, its text and its decisions: one for each source, policies first, then directives, approvals, citations, tool failures, inferred memories, history messages and history summaries |
| ContextGovernance.OrderedByType | app/mneme/memoria/context_governance.py:60-69 | The sources are ordered by type in just that order, and those of one type stay in the order in which they were given |
| ContextGovernance.LineIsLongest | app/mneme/memoria/context_governance.py:112-124 | A source keeps as much of its prefix and sanitised content as its type allows and the budget has room for, and is dropped exactly if that would be none of its content |
| ContextGovernance.LongSourceFillsLimit | app/mneme/memoria/context_governance.py:70-79 | A source longer than any limit, first in an ample budget, takes exactly the characters of its type, behind a prefix naming type and identifier |
| ContextGovernance.CharBudgetMeans | app/mneme/memoria/context_governance.py:103-105 | A number of characters is within the budget exactly if it is within 20,000 and within what the tokens stand for |
| ContextGovernance.ClampIsNearest | app/mneme/memoria/context_governance.py:103 | The characters per token that count are the nearest to the configured ones between 1 and 8 |
| ContextGovernance.RunAccounts | app/mneme/memoria/context_governance.py:113-145 | Lines plus separators plus remaining characters is the initial budget, and every source gets exactly one decision, in order, with its own identifier, type and size |
| ContextGovernance.CriticalWithinBudget | app/mneme/memoria/context_governance.py:103-157 | The critical text has at most 20,000 characters and its estimate stays within its token budget |
| ContextGovernance.LaterSourceIsInvisible | app/mneme/memoria/context_governance.py:106-147 | Adding one source anywhere changes no decision and no line of a source ordered before it |
| ContextGovernance.NothingAfterCut | app/mneme/memoria/context_governance.py:119-135 | Once a kept source is cut by the global budget, every later source is dropped and the text stays as it is |
| ContextGovernance.KeptLineShape | app/mneme/memoria/context_governance.py:114-124 | A kept line is its prefix and a non-empty beginning of the sanitised content, within the limit of its type |
| ContextGovernance.DecisionTellsOutcome | app/mneme/memoria/context_governance.py:117-145 | Dropped means no line, preserved means the prefix and the whole sanitised content, truncated means a proper beginning of that with some content; the recorded size is that of the line, and the reason tells which of these it was and why |
| ContextGovernance.TokensFit | app/mneme/memoria/context_governance.py:174-177 | An estimate fits a budget exactly if the characters fit the budget times the characters per token |
| BoundedSummary.TakeFromEnd | app/mneme/domains/chat/context.py:475-486 | The loop from the end returns the longest suffix of whole lines that fits, or the end of the last line |
| BoundedSummary.BoundSummary | app/mneme/domains/chat/context.py:468-486 | The summary is the joined text if it fits and that suffix otherwise; it never exceeds its limit |
| BoundedSummary.FittingIsLongest | app/mneme/domains/chat/context.py:475-486 | That suffix in closed form: it starts at the first line from which the rest fits, and if not even the last line fits it is the end of that line |
| BoundedSummary.SummaryOfTidy | app/mneme/domains/chat/context.py:468-486 | For single-spaced non-empty lines the summary is the fitting suffix of all lines, old and new |
| BoundedSummary.BoundingFirstChangesNothing | app/mneme/domains/chat/context.py:186-210 | For such lines and at least one new entry, bounding the old summary first does not change the result |
| BoundedSummary.DoubleSpaceMatters | app/mneme/domains/chat/context.py:468-486 | Single spacing is needed for that: a line with two spaces in a row, which no stored summary holds, cut between them, gives another result |
| BoundedSummary.BoundedAgain | app/mneme/domains/chat/context.py:186-190 | Bounding a summary again, to no more than before, gives what bounding the lines once gives, up to the space a cut line may begin with |
| HistoryContext.PrepareHistory | app/mneme/domains/chat/context.py:156-260 | Returns the history as a function of the inputs: compacted followed by recent is the unsummarised list, each loop stops at the first split that fits, summary, watermark and reasons follow from the split, and the result is within the budget |
| HistoryContext.HistoryCompacts | app/mneme/domains/chat/context.py:156-260 | That function keeps the promise: verbatim rest, persisted summary, watermark, budget, and both loops stopping at their first fitting split |
| HistoryContext.CompactsUnique | app/mneme/domains/chat/context.py:191-224 | The promise fixes the result: nothing else satisfies it |
| HistoryContext.FirstPass | app/mneme/domains/chat/context.py:191-203 | The first loop stops at the first split at which the payload estimate fits beside the bounded old summary |
| HistoryContext.SecondPass | app/mneme/domains/chat/context.py:205-224 | The second loop stops at the first split, from there on, at which the contents fit beside the summary of everything compacted, though at a later one they may not fit again |
| HistoryContext.TurnCutMeans | app/mneme/domains/chat/context.py:177-180 | As many of the last messages stay verbatim within the turn limit as there are, up to the setting and up to 24 |
| HistoryContext.EstimateMeans | app/mneme/domains/chat/context.py:443-465 | A message fits a number of tokens in the first loop exactly if its content, and of its tool calls and of its sources each as much as the soft limit lets count, are within what the tokens stand for; in the second loop only the content counts |
| HistoryContext.EstimatesAddUp | app/mneme/domains/chat/context.py:167-176 | The estimates of both loops add up over the messages |
| HistoryContext.ViewEstimatesAddUp | app/mneme/domains/chat/context.py:136-139 | So do those of the messages as they stand in the context |
| HistoryContext.EntrySays | app/mneme/domains/chat/context.py:430-440 | The words of an entry are User exactly for a user and otherwise Assistant, the numbers of tool calls and of sources if there are any, and then all words of the message in order |
| HistoryContext.DecimalReads | app/mneme/domains/chat/context.py:434-438 | These numbers are written in digits that stand for them, without a leading zero |
| Text.OneSpacedKeepsWords | app/mneme/domains/chat/context.py:433 | Splitting at whitespace and joining with single spaces keeps the words and their order |
| Text.SpacesByCode | app/mneme/domains/chat/context.py:433-477 | What counts as whitespace in splitting, and what as a line boundary |
| HistoryContext.ViewIsTold | app/mneme/domains/chat/context.py:228-239 | A message in the context has its own identifier and role and the first 20,000 characters of its stripped text, so all its words if that is not longer |
| HistoryContext.EntryTidy | app/mneme/domains/chat/context.py:430-440 | The summary entry of an eligible message is one single-spaced line |
| HistoryContext.PersistedIsRecentLines | app/mneme/domains/chat/context.py:205-224 | If the old summary is what bounding some lines left, even cut within a line, the persisted summary is what bounding these lines and the entries of all compacted messages leaves |
| ConversationContext.PrepareConversation | app/mneme/domains/chat/context.py:35-153 | Returns the critical text and, behind a newline if both are there, the summary of the history prepared in what is left of both budgets, as functions of the inputs; the context costs at most the token budget plus one, and more than the budget exactly when both parts are there, fill it to the last token and leave no room for the newline; the summary has at most 20,000 characters, and messages are either compacted or verbatim |
| ConversationContext.WithCritical | app/mneme/domains/chat/context.py:103-118 | The path with critical sources: the history gets the remaining tokens and the remaining summary characters |
| ConversationContext.LimitMeans | app/mneme/domains/chat/context.py:103-110 | Beside a critical text a summary may have so many characters exactly if they are within the setting, with it and a newline within 20,000, and within a third of what the remaining tokens stand for |
| ConversationContext.BudgetMeans | app/mneme/domains/chat/context.py:68-69 | The token budget is the configured one, or 256 if that is less or missing |
| ConversationContext.JoinedCost | app/mneme/domains/chat/context.py:115-139 | Joining two texts with a newline costs at most one token more than the two |
| ConversationContext.GuardsAgainstExcess | tests/test_context_governance.py:260-274 | What rules the excess out before the call: no critical sources, no summary characters, or no old summary and everything verbatim; at one character per token the excess is exactly both parts filling the budget |
| ConversationContext.BudgetExceeded | tests/test_context_governance.py:260-274 | A concrete call - one approval that sanitising leaves as it is, a one-character old summary, a message of 241 characters, 256 tokens - whose context costs 257 |
| ConversationContext.ApprovalLine | app/mneme/memoria/context_governance.py:113-147 | The critical text of that call: the line of one approval |
| ConversationContext.ChatSession.Ask | app/mneme/domains/chat/service.py:369-388 | A turn stores the question, prepares the context from the stored summary and watermark and persists the new ones |
| ConversationContext.TurnPartitions | app/mneme/domains/chat/context.py:225-239 | After a turn every earlier message is at or before the watermark or verbatim in the context, never both, and the stored summary is the old one extended by what was newly covered |
| ConversationContext.WatermarkNeverMovesBack | app/mneme/domains/chat/context.py:225-227 | Over every run of posts and turns the watermark never moves backward in the growing history |
| ConversationContext.CoveredStaysCovered | app/mneme/domains/chat/context.py:55-66 | A message once covered by the summary is in no later context verbatim |
| ConversationContext.HistoryIsAll | app/mneme/domains/chat/context.py:48-54 | What can be covered or shown is exactly what users and assistants said, except messages of whitespace |
| ConversationContext.SummaryTellsAll | app/mneme/domains/chat/context.py:205-239 | In every run from the empty session in which the covered text fits the limit at each turn, the words of the stored summary are those of all covered messages, in order, each behind its heading |
| ConversationContext.ContextTellsAll | app/mneme/domains/chat/context.py:205-239 | In such a run the context of a turn tells the whole earlier conversation: the summary all words up to the watermark, and then one view for each later message |
| ConversationContext.SummaryIsRecent | app/mneme/domains/chat/context.py:205-239 | In every run from the empty session, whatever the limits of its turns, the stored summary is, up to the space a cut line may begin with, the end of the joined entries of all covered messages: what is lost is lost from the front |
| ConversationContext.SummaryOfAllCovered | app/mneme/domains/chat/context.py:205-239 | While the limit does not grow, it is exactly what bounding the entries of all covered messages at once leaves: compacting turn by turn is compacting once |
| FolderTree.DescendantsAreBelow | app/mneme/crud/document_folder.py:147-190 | The recursive query returns exactly the proper descendants |
| FolderTree.FoundOnce | app/mneme/crud/document_folder.py:147-190 | Off a cycle the query, which removes no duplicates, finds a descendant in one round only |
| FolderTree.QueryEndsIff | app/mneme/crud/document_folder.py:147-190 | The query has a last round if and only if the folder does not lie on a cycle of parent pointers |
| FolderTree.DescendantRows | app/mneme/crud/document_folder.py:147-190 | Round by round, without removing any row, the query yields each descendant exactly once, for a folder on no cycle |
| FolderTree.DescendantPks | app/mneme/crud/document_folder.py:147-190 | The set of its rows is the set of proper descendants |
| FolderTree.MoveKeepsTreeIffAllowed | app/mneme/domains/documents/folders.py:37-42 | A move keeps the parent pointers acyclic if and only if the move check allows it |
| FolderTree.RemovedLeaf | app/mneme/domains/documents/folders.py:232-235 | Removing a folder leaves a tree if and only if it has no subfolders |
| FolderTree.RootOfKnowledgeBase | app/mneme/crud/document_folder.py:13-54 | The parents of a folder lead to a self-parented root in the same knowledge base with the same owner |
| FolderOperations.StepKeepsValid | app/mneme/domains/documents/folders.py:131-260 | Every operation keeps every knowledge base one tree, with its unique indexes, and every document in a folder of its knowledge base |
| FolderOperations.EveryRunKeepsTrees | app/mneme/domains/documents/folders.py:131-260 | In every serial run every folder reaches in finitely many steps the one root of its knowledge base |
| FolderOperations.SiblingsDiffer | app/mneme/domains/documents/folders.py:33-34 | In every serial run no two folders under one parent have names that fold to the same, the root counting as / |
| FolderOperations.FolderService.EnsureRoot | app/mneme/crud/document_folder.py:13-54 | Returns the root, creating it under the given key and identifier as its own parent, named /, if there is none |
| FolderOperations.FolderService.Create | app/mneme/domains/documents/folders.py:131-165 | Answers the code of the first violated condition, each exactly under its condition - 4026 exactly if all others hold and a folder under that parent has a name that folds to the same - and changes nothing, or adds exactly the requested folder, its name the words of the given one |
| FolderOperations.FolderService.Update | app/mneme/domains/documents/folders.py:168-218 | Answers the code of the first violated condition, each exactly under its condition, 4026 exactly if another folder under the resulting parent has a name that folds to the same, and changes nothing; or renames, moves or both |
| FolderOperations.FolderService.Delete | app/mneme/domains/documents/folders.py:221-236 | Removes exactly an empty folder that is not a root; each failure code exactly under its condition |
| FolderOperations.FolderService.MoveDocument | app/mneme/domains/documents/folders.py:239-262 | Refiles the document within its knowledge base; each failure code exactly under its condition |
| FolderViews.FolderPath | app/mneme/domains/documents/upload_service.py:81-99 | The walk terminates on arbitrary parent pointers, also cyclic ones, and returns the names it met, outermost first |
| FolderViews.WalkIsWayToRoot | app/mneme/domains/documents/upload_service.py:81-99 | In a tree these are exactly the names on the way from below the root to the folder |
| FolderViews.ListFolders | app/mneme/crud/document_folder.py:107-144 | Lists every folder of the knowledge base exactly once, by depth and then by key |
| FolderViews.ListedRows | app/mneme/crud/document_folder.py:107-144 | The listed rows are a listing of the knowledge base as the tree view needs it |
| FolderViews.BuildFolderTree | app/mneme/domains/documents/folders.py:79-97 | Each item's children are exactly the listed folders with that parent, in listing order; the others are at the top |
| FolderViews.PlacedExactlyOnce | app/mneme/domains/documents/folders.py:79-97 | Every folder but the root is placed exactly once: under its true parent, or at the top when that is the root |
| FolderViews.NestedViewShowsPath | app/mneme/domains/documents/folders.py:79-97 | A folder is shown in the nested view at exactly the names on its way to the root |
| FolderViews.PathIsWhereShown | app/mneme/domains/documents/upload_service.py:81-99 | The path reported for a folder is the one at which the nested view shows it |
| ChannelDelivery.Send | app/mneme/channels/adapters/feishu.py:118-147 | Parts are posted in order up to the first that is not accepted; the report counts exactly the accepted ones, except after an unexpected exception, which counts nothing |
| ChannelDelivery.DeliveryRow.Claim | app/mneme/crud/channel.py:302-322 | A due pending or failed row becomes running with one more attempt; any other row stays as it is |
| ChannelDelivery.DeliveryRow.Complete | app/mneme/crud/channel.py:365-386 | The whole row after success |
| ChannelDelivery.DeliveryRow.MarkFailure | app/mneme/channels/delivery.py:210-237 | The whole row after a failure: retry with doubled delay up to an hour, or dead letter when the failure is permanent or the claimed attempt was the last |
| ChannelDelivery.DeliveryRow.Recover | app/mneme/crud/channel.py:280-299 | A running row with an expired lease fails and is due at once; any other stays as it is |
| ChannelDelivery.DeliveryRow.Retry | app/mneme/crud/channel.py:325-350 | Attempts start over, what was sent stays recorded; a succeeded row stays as it is |
| ChannelDelivery.DeliveryRow.Process | app/mneme/channels/delivery.py:104-173 | Claims a row exactly if it is pending or failed and due, sends the parts after the recorded ones and records what was sent; success records all parts; a permanent failure becomes a dead letter with no next attempt, any other failure is due again after the delay while attempts are left and becomes a dead letter otherwise |
| ChannelDelivery.DelayDoubles | app/mneme/channels/delivery.py:222-227 | The first delay is the base, each further one twice the one before, none longer than an hour |
| DeliveryProtocol.CanHarmIffRisky | app/mneme/channels/delivery.py:104-237 | From a consistent state a step can lead, even if every later step is disciplined, to a part received twice or a wrong record, if and only if it reports a count that is not exact, is the death of a worker that has sent something, or takes over from a live worker while parts are unrecorded |
| DeliveryProtocol.NoRiskNoHarm | app/mneme/channels/delivery.py:104-237 | In every run without such steps no part is received twice and the record is right, at every moment |
| DeliveryProtocol.ConsistentIffDisciplined | app/mneme/channels/delivery.py:104-237 | The protocol's invariant - one worker at most, holding the running row, record and deliveries in order - is kept by exactly the disciplined steps |
| DeliveryProtocol.ExactlyOnceInOrder | app/mneme/channels/delivery.py:104-237 | In every run of such steps the recipient has a prefix of the parts, each once and in order, the recorded identifiers are those of the recorded parts, and succeeded means all were delivered |
| DeliveryProtocol.AttemptIsRun | app/mneme/channels/delivery.py:104-173 | What one attempt with a success or an exactly counted failure does to the row is a run of the protocol from a consistent state to a consistent state without a worker |
| DeliveryProtocol.ProcessInProtocol | app/mneme/channels/delivery.py:104-173 | Processing a claimable row is a run of the protocol from that state: the claim, the delivery of exactly the identifiers the channel accepts, and the write-back of the report, which leaves the row as processed; it ends consistent if and only if the report does not hide a delivery behind an unexpected exception. A row that is not claimable stays as it is |
| DeliveryProtocol.UncountedFailureDuplicates | app/mneme/channels/delivery.py:147-158 | The path that records 0 sent parts delivers a part twice |
| DeliveryProtocol.ExpiredLeaseDuplicates | app/mneme/crud/channel.py:280-299 | So does recovering the lease of a worker that is still sending |
| DeliveryProtocol.ClaimsBounded | app/mneme/channels/delivery.py:218-219 | Without recovery and manual retry a row is claimed at most max_attempts times (once if that is below one), whatever the reports say |
| DeliveryProtocol.OnlyOneWorkerLeaves | app/mneme/channels/delivery.py:104-173 | Workers join by claims, and each leaves only by its own write-back or death |
| DeliveryProtocol.DueAfterWriteBack | app/mneme/channels/delivery.py:218-228 | After a failure the row can be claimed again exactly if it is retryable, attempts are left and the delay has passed; after a success never |
| DeliveryProtocol.DueAfterTakeover | app/mneme/crud/channel.py:280-350 | A claimed row can be claimed by nobody else and is recovered exactly once its lease has expired; a recovered row is due at once with its attempts kept, a row retried by hand at once with its attempts forgotten |
| DeliveryProtocol.PermanentFailureIsFinal | app/mneme/channels/delivery.py:218-220 | From a consistent state, after a permanent failure no run without a manual retry claims the row again or changes it |
| DeliveryProtocol.DeadLetterReturnsIff | app/mneme/channels/delivery.py:210-237 | In any state a dead letter can be claimed again without a manual retry if and only if a worker that lost its lease is still out and has attempts left |
| DeliveryProtocol.RetryResumes | app/mneme/crud/channel.py:325-350 | A manual retry of a dead letter continues after the recorded parts |
| MessageSplit.CutPrefersBreaks | app/mneme/channels/adapters/feishu.py:306-310 | A piece ends at the last newline of the second half of its window if there is one, else at its last space, else at the limit |
| MessageSplit.SplitText | app/mneme/channels/adapters/feishu.py:300-315 | The loop ends; the parts are the successive pieces, stripped; every part is within the limit; nothing but whitespace is lost; and no part is empty if and only if the first piece is not blank |
| MessageSplit.VisibleStart | app/mneme/channels/adapters/feishu.py:300-315 | A text that starts with a non-space meets that condition |
| MessageSplit.RenderAnswer | app/mneme/channels/adapters/feishu.py:108-116 | For every answer, citation list and removal of Markdown each part is non-empty and within the limit, and what is visible in them is the text, or the fallback if it has none, and then the references, if any, behind their title |
| MessageSplit.AnswerStartsVisibly | app/mneme/channels/adapters/feishu.py:278-281 | The text of an answer always begins with a visible character |
| RetrievalMetrics.DedupePreserveOrder | app/mneme/domains/eval/service.py:22-30 | The loop with its set of seen items keeps exactly the non-empty items, each at its first occurrence |
| RetrievalMetrics.DedupeKeepsOrder | app/mneme/domains/eval/service.py:22-30 | Two kept items stand in the order of their first occurrences |
| RetrievalMetrics.RetrievedGrows | app/mneme/domains/eval/service.py:33-41 | Normalising, deduplicating and cutting keep the prefix relation, for every cut-off, also a negative one |
| RetrievalMetrics.CalculateMrr | app/mneme/domains/eval/service.py:63-70 | The loop returns the reciprocal rank of the first hit, 0 without one and 1 if nothing is expected |
| RetrievalMetrics.CalculateNdcg | app/mneme/domains/eval/service.py:73-87 | The two sums and their quotient, with the special cases for no expectation and no retrieval |
| RetrievalMetrics.EvaluateRetrieval | app/mneme/domains/eval/service.py:90-114 | All metrics of a ranking from the raw identifiers |
| RetrievalMetrics.EvaluationTells | app/mneme/domains/eval/service.py:90-114 | Every number of an evaluation in terms of the wanted identifiers, stripped and not blank, and the retrieved ones: counts, source hit, and recall as the share of the wanted that were retrieved |
| RetrievalMetrics.MrrMeans | app/mneme/domains/eval/service.py:63-70 | MRR is one over the position of the first hit |
| RetrievalMetrics.NdcgMeans | app/mneme/domains/eval/service.py:73-87 | NDCG is what the positions with a hit weigh together, as a share of what as many first positions weigh as hits were possible |
| RetrievalMetrics.RecallBounds | app/mneme/domains/eval/service.py:56-60 | Recall lies in [0, 1] and is 1 exactly when everything expected was retrieved |
| RetrievalMetrics.HitsFirstIsBest | app/mneme/domains/eval/service.py:78-86 | For any strictly decreasing positive discount, the gain of a ranking is at most that of the same number of hits on top, with equality exactly if they are on top |
| RetrievalMetrics.NdcgBounds | app/mneme/domains/eval/service.py:73-87 | On deduplicated lists NDCG lies in [0, 1]; it is 1 exactly when the first min(expected, retrieved) positions are all hits, and positive exactly when there is a hit |
| RetrievalMetrics.RepeatedHitExceedsOne | app/mneme/domains/eval/service.py:73-87 | Without deduplication NDCG can exceed 1 |
| RetrievalMetrics.EvaluationInUnitInterval | app/mneme/domains/eval/service.py:90-114 | Every evaluation has all three metrics in [0, 1] |
| RetrievalMetrics.MetricsAgreeOnHit | app/mneme/domains/eval/service.py:90-114 | With something expected, source_hit holds exactly if recall, exactly if MRR and exactly if NDCG is positive |
| RetrievalMetrics.LongerRankingKeepsRecallAndMrr | app/mneme/domains/eval/service.py:90-114 | Appending to a ranking lowers neither recall nor MRR |
| RetrievalMetrics.OneMoreLowersNdcgIff | app/mneme/domains/eval/service.py:73-87 | Appending one identifier lowers NDCG if and only if it is a miss, fewer are retrieved than expected, and there was a hit |
| RetrievalMetrics.LongerLowersNdcgIff | app/mneme/domains/eval/service.py:73-87 | A longer ranking has the lower NDCG if and only if the shorter retrieved less than expected and the added identifiers gain a smaller share of what they could than the shorter ranking did |
| RetrievalMetrics.MissesLowerNdcgIff | app/mneme/domains/eval/service.py:73-87 | If all added identifiers miss, NDCG falls if and only if any is added, fewer were retrieved than expected, and there was a hit |
| RetrievalMetrics.HitsNeverLowerNdcg | app/mneme/domains/eval/service.py:73-87 | If all added identifiers hit, NDCG never falls |
| RetrievalMetrics.NdcgGrowsWhenFull | app/mneme/domains/eval/service.py:73-87 | Once as many are retrieved as are expected, appending never lowers NDCG |
| GraphRag.FindSeeds | app/mneme/domains/graph/rag.py:86-127 | The seeds are matches of entries, scored by the share of the terms matched and the importance; scores do not grow along the list, nor on equal scores importances, and then names and identifiers decide; a match is left out only if the limit is used up, and then it outranks no seed |
| GraphRag.BetterMatchIsKept | app/mneme/domains/graph/rag.py:97-127 | An entry that matches more of the terms and is no less important is never left out in favour of one that matches fewer, with scores rounded to four digits and fewer than 7,000 terms |
| GraphRag.BestSeedsAreKept | app/mneme/domains/graph/rag.py:119-127 | Of the sorted matches, every one kept scores at least as much as every one cut, and on equal scores is at least as important |
| GraphRag.BuildExpansions | app/mneme/domains/graph/rag.py:147-201 | The expansions are related-document edges that touch a seed's document, best score first, then most shared, then by identifiers; such an edge is left out only if the maximum is used up, and then it outranks none; the evidence is of entries of the two documents with a signature both share, and of all of them unless the documents share more than the eight memories an edge shows |
| GraphRag.BuildContexts | app/mneme/domains/graph/rag.py:204-293 | The loops with their set of seen documents and the stable sort compute the specified contexts |
| GraphRag.OneContextPerDocument | app/mneme/domains/graph/rag.py:233-284 | Every document an expansion contributes has exactly one expansion context, made from the first such expansion |
| GraphRag.ContextHasBestScore | app/mneme/domains/graph/rag.py:233-284 | With expansions in rank order that context carries the best score of all links that reach the document |
| GraphRag.SeedDocumentsShown | app/mneme/domains/graph/rag.py:235-241 | A seed's own document appears as an expansion exactly when a link between two seeds' documents ends in it |
| GraphRag.NoSeedIsCut | app/mneme/domains/graph/rag.py:337-342 | The cut of the contexts never drops a seed: expansions only fill the places the seeds leave |
| GraphRag.BuildDecision | app/mneme/domains/graph/rag.py:315-362 | A decision's best-matching seeds, best links and cut contexts: seeds first, then by score and document; each context tells a seed, or a document an expansion leads to with that document's own evidence if it has any; and such a document outside the seeds' is left out only if the contexts are used up, behind all of them |
| GraphRag.CompareGraphRetrieval | app/mneme/domains/graph/rag.py:374-412 | The two rankings, their metrics and the rounded differences; with seeds first, recall and MRR of the graph are never below the baseline's, nor are their differences negative under any rounding that is monotone and keeps zero |
| GraphRag.BaselineIsPrefix | app/mneme/domains/graph/rag.py:389-398 | The baseline's chunk identifiers are a prefix of the graph's |
| GraphRag.GraphIsNeverWorse | app/mneme/domains/graph/rag.py:374-412 | For every decision, expected set and cut-off the graph's recall and MRR are at least the baseline's, and so is NDCG once the baseline retrieves as many as are expected |
| GraphRag.GraphLowersNdcgIff | app/mneme/domains/graph/rag.py:374-412 | For every decision, expected set and cut-off, exactly when the graph's NDCG is below the baseline's: the baseline retrieves fewer than expected and what is added gains a smaller share of what it could; if all of it misses, as soon as the baseline has a hit; if all of it hits, never |
| GraphRag.GraphCanLowerNdcg | app/mneme/domains/graph/rag.py:374-412 | Inputs on which the graph's NDCG is below the baseline's |
| MemoryGovernance.BuildView | app/mneme/domains/memory/governance.py:201-243 | The grouping, relation and canonical loops compute the specified view |
| MemoryGovernance.ViewTells | app/mneme/domains/memory/governance.py:201-243 | The view shows one canonical memory for each group of entries with one key, what needs review first, then by evidence, importance and name; each tells its group |
| MemoryGovernance.CanonicalIsTold | app/mneme/domains/memory/governance.py:159-198 | What it tells: the most important entry, the latest and with the greatest identifier among equals, its importance, the identifiers in order of time, the documents, the first and the last time, and the status: needs review by a contradiction between successive entries, otherwise merged by a duplicate, otherwise stable if there are several |
| MemoryGovernance.GroupsPartition | app/mneme/domains/memory/governance.py:206-213 | Every eligible entry is evidence in exactly one group, the group of its key, and nothing else is |
| MemoryGovernance.EvidenceIsGroup | app/mneme/domains/memory/governance.py:159-198 | Each canonical memory lists exactly the identifiers of its group and counts them |
| MemoryGovernance.EvidenceIsEligible | app/mneme/domains/memory/governance.py:201-243 | All canonical memories of the view together list exactly the identifiers of the eligible entries |
| MemoryGovernance.StatusTells | app/mneme/domains/memory/governance.py:165-174 | A memory is single exactly if it rests on one entry, and needs review exactly if two successive entries contradict each other |
| MemoryGovernance.TopIsRepresentatives | app/mneme/domains/memory/governance.py:91-99 | The importance shown for a group, the greatest of its entries, is that of its representative |
| MemoryGovernance.RelationsPlusCanonicals | app/mneme/domains/memory/governance.py:201-243 | Relations and canonical memories together are as many as the eligible entries |
| MemoryGovernance.RelationsAreOneChain | app/mneme/domains/memory/governance.py:137-156 | A group's relations lead through all its entries, one after the other, in strictly increasing (time, identifier) order |
| MemoryGovernance.InputOrderIsIrrelevant | app/mneme/domains/memory/governance.py:91-99 | With unique identifiers the keys, each group's relations and its representative do not depend on the order of the entries |
| MemoryGovernance.ViewRelationsOrderIrrelevant | app/mneme/domains/memory/governance.py:201-243 | Neither does the whole collection of relations |
| CircuitBreaker.Breaker.BeforeCall | app/mneme/infra/circuit_breaker.py:21-45 | Blocks exactly when the history of events says so, and leaves other names alone |
| CircuitBreaker.Breaker.RecordSuccess | app/mneme/infra/circuit_breaker.py:48-54 | Replaces the name's entry by a closed one, keeping the state in step with the history |
| CircuitBreaker.Breaker.RecordFailure | app/mneme/infra/circuit_breaker.py:57-95 | Counts the failure and opens at the threshold, keeping the state in step with the history; other entries stay |
| CircuitBreaker.OnlyOwnEventsMatter | app/mneme/infra/circuit_breaker.py:21-95 | Only the events of a name decide about it |
| CircuitBreaker.FixedRule | app/mneme/infra/circuit_breaker.py:21-95 | With one threshold of at least one and one timeout, a call is blocked exactly when the failures since the last success have reached the threshold and now is before the last failure plus the timeout |
| CircuitBreaker.ZeroThreshold | app/mneme/infra/circuit_breaker.py:74-86 | With a threshold of zero the first failure blocks, but the absence of failures does not |
| SectionSplit.SplitSections | app/mneme/clients/text_splitter_client.py:76-145 | Sections have consecutive numbers and strictly increasing offsets, each is exactly the slice of the text at its offset, and together they hold all of the content but whitespace |
| SectionSplit.UnixLinesDropsReturns | app/mneme/clients/text_splitter_client.py:76-82 | Unifying line ends drops the carriage returns directly before line feeds and nothing else |
| SectionSplit.PathsExactIff | app/mneme/clients/text_splitter_client.py:121-128 | All section paths are the chains of enclosing headings if and only if no heading that returns to the same or a shallower level leaves out a level above itself |
| SectionSplit.StackStep | app/mneme/clients/text_splitter_client.py:127 | The same for one heading |
| SectionSplit.PathsOfTidyDocument | app/mneme/clients/text_splitter_client.py:121-128 | Without skipped levels every path is the chain of enclosing headings |
| SectionSplit.SkippedLevelMisplaces | app/mneme/clients/text_splitter_client.py:127 | Levels 1, 3, 3: the third heading is filed beneath the second |
| HashBackfill.ExactlyOneCanonical | app/mneme/crud/document.py:159-174 | In a valid table every (knowledge base, hash) in use has exactly one canonical document, and every document with that hash is it or points to it |
| HashBackfill.EveryRunValid | scripts/backfill_document_hashes.py:27-74 | Every table in every serial run of uploads and backfill batches from any valid table is valid |
| HashBackfill.HashedForGood | scripts/backfill_document_hashes.py:41-57 | Over a run the row of a hashed document never changes: canonical stays canonical, a duplicate keeps pointing to the same document |
| HashBackfill.MemoStillAgrees | scripts/backfill_document_hashes.py:41-51 | The memo of a batch always holds what the database lookup would return |
| HashBackfill.EffectsCompose | scripts/backfill_document_hashes.py:62-74 | Hashing a set of documents and then later ones is hashing them all at once |
| HashBackfill.EffectIsUnique | scripts/backfill_document_hashes.py:62-74 | The outcome is fixed by the documents hashed, whatever the batch size |
| HashBackfill.EffectTells | scripts/backfill_document_hashes.py:41-57 | What hashing does to each row: digest, normalised name, a version group of its own unless it has one, and a pointer to the canonical document with that content unless it is that; a new canonical document is the first with its content, where there was none |
| HashBackfill.DocumentStore.BackfillBatch | scripts/backfill_document_hashes.py:27-59 | Hashes exactly the listed documents that have a file, canonical being the existing document or the first of the batch; counts those without a file |
| HashBackfill.DocumentStore.RunBackfill | scripts/backfill_document_hashes.py:62-74 | Terminates; every document without a hash whose file exists is hashed, and the exit code is 1 exactly if some file is missing |
| HashBackfill.DocumentStore.ListUnhashed | app/mneme/crud/document.py:196-208 | The smallest keys after the given one among documents without a hash, in increasing order, all of them if fewer than the limit |
| HashBackfill.DocumentStore.FindCanonical | app/mneme/crud/document.py:159-174 | The canonical document with the smallest key, or none |
| HashBackfill.DocumentStore.Upload | app/mneme/domains/documents/upload_service.py:164-230 | Known content changes nothing and shows the canonical document; new content adds exactly its row, canonical and in the version group of its name |
| HashBackfill.UploadNeedsCheck | app/mneme/domains/documents/upload_service.py:164-171 | Adding the row keeps the invariant if and only if there is no canonical document with that content |
| HashBackfill.DeletionKeepsValidIff | app/mneme/crud/document.py:138-145 | Deleting a document keeps the invariant if and only if no other document points to it |
| HashBackfill.DeletedCanonicalStrands | scripts/backfill_document_hashes.py:27-59 | Two documents of equal content hashed by one batch: the later one points to the earlier one, and deleting that leaves it pointing to nothing |

## Left out

- RelatedIndex.BuildRelatedEdges: does not fix which eight shared memories are sampled or their order, which depend on the order in which the signatures were first met; types are a set instead of a sorted list.
- RelatedProjection.StoredReadAgrees: for documents with distinct identifiers and entries in their document's knowledge base; ranks are not compared, because they are given before the restriction.
- ConversationContext.PrepareConversation: the extraction of critical items from messages is a parameter; the before-tokens estimate and the assembly report are not modelled.
- ContextGovernance.AssembleCriticalContext: sanitising is any function; the token estimates of the report are not modelled.
- ConversationContext.ChatSession.Ask: the current message is the newest; the path that retries an older message is not modelled.
- FolderOperations.EveryRunKeepsTrees: operations are serial, as two concurrent moves are not ordered by any lock; case folding of names is any function.
- ConversationContext.SummaryOfAllCovered: for summary limits that do not grow from turn to turn; lines dropped under a stricter limit do not come back under a laxer one, so that for any limits `SummaryIsRecent` is what holds.
- DeliveryProtocol.ExactlyOnceInOrder: one row; selection and order of due rows by the dispatcher, and ownership checks, are not modelled.
- DeliveryProtocol.ProcessInProtocol: a reply tells what the recipient got; a post that times out after the channel accepted it counts as not received.
- MessageSplit.RenderAnswer: the removal of Markdown is any function and the list of references any text.
- GraphRag.BuildContexts: context names, reasons and texts are not modelled; a missing chunk is the empty identifier.
- GraphRag.BuildExpansions: which eight memories an edge shows is open, so that beyond eight the evidence is not known to be complete.
- GraphRag.FindSeeds: extraction of query terms and text matching are parameters; summaries and times of seeds are not modelled.
- MemoryGovernance.BuildView: classification of two entries (markers, similarity) is any function; counts per relation type and hashed identifiers of relations are not modelled.
- MemoryGovernance.InputOrderIsIrrelevant: the order of identifiers with equal times inside a canonical memory does follow the input and is not compared.
- SectionSplit.SplitSections: the heading pattern is any finder of headings in order; section summaries and page numbers are not modelled.
- HashBackfill.DocumentStore.Upload: serial, so that the race caught by the unique index does not occur; version numbers and file moves are not modelled.
- CircuitBreaker.Breaker.RecordFailure: one process with a clock that does not run backwards.
- Document-scope graphs: the stored path collects related documents before filtering and the direct path after it, so they do not agree and nothing is claimed.
- SQL, row locks, Neo4j, vectors, caches, queues, HTTP and language-model calls: tables are maps and unique indexes are invariants.
- Floating point: scores, importances and token ratios are real numbers; rounding to four digits is any function.
- Agent runs, the task outbox, schedules, analytics, readiness reports and node payloads: they would only add easy members.
