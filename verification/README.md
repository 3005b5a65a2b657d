# Ogham, verified

Ogham makes an LLM conversation fit a token budget: it clears tool results to retrievable
stubs, compresses the middle of the conversation, summarises its beginning and, as a last
resort, drops whole groups of messages. This project models its five connected cores and
proves what they keep.

- **Budget cascade** (`Agent`, `Conversation`, `Groups`, `DropOld`, `Budget`, `DropChoice`,
  `Provenance`). The four steps are methods with the original's loops, each equal to a
  specification function on message lists. The theorems are about that function, for every
  message list, every policy, every counter and every pipeline outcome: a `World` gives, for
  each step and position, an arbitrary rewritten text, an optional stored id and the originals
  saved. `DropPass` follows the drop loop with its running total and its re-scan after each
  removal.
- **Audit and sessions** (`Compact`, `FoldAudit`, `FoldContents`, `Compaction`, `FoldTagLists`,
  `Recall`, `RecallRuns`, `RecallScores`, `FoldIds`, `Retention`, `Session`, `SessionRuns`,
  `FoldMarks`, `SessionIndex`, `SessionStore`, `Markers`, `MarkerScans`, `Stubs`, `Summaries`,
  `SummaryMarkers`, `TidyTexts`, `CutSummaries`, `StoredTexts`). `ContextSession` and
  `RecallIndex` are classes; a session's `Compact` equals the transition `Next` on its snapshot,
  and the run theorems are inductions over push and compact events.
- **Anthropic renderer** (`AnthropicRender`, `AnthropicPairing`, `AnthropicConservation`,
  `AnthropicOrder`, `AnthropicBreakpoints`, `AnthropicRuns`). Rendered blocks carry the position
  of the source block they stand for, so that conservation and order can be stated.
- **Selection** (`LogStripper`, `LogSelection`, `LogFocus`, `LogTiers`, `LogBuckets`, `Crusher`,
  `Pruning`, `ArraySampling`, `SmartCrusher`). `Crushed` is what the recursive JSON compressor
  computes, `Prunes` is what it promises, and the first implies the second at every depth.
- **Codecs** (`Utf8`, `CcrCodec`, `FjallStore`). The native frame, the text envelope and the
  byte store that holds both under one key space.

`Basics.dfy`, `Messages.dfy` and `Sorting.dfy` hold shared pieces: saturating subtraction, set
sizes, truncation, decimal text, messages and classification, a stable sort and the order on
strings.

Verify the whole project with `dafny verify dfyconfig.toml`.

## Where the code promises less than its documentation

- A message is safe from every step only when it is pinned, in the protected tail or in the
  recent suffix. The middle and old bands rewrite or absorb everything else, whatever its
  class; system, error and latest-user messages are safe in the clearing and dropping steps
  (`DropOld.DropKeepsWhere`, `DropOld.DropKeepsLatestUser`).
- The band start is first moved off tool results and then in front of the first pinned
  message, which can be a tool result again. `Conversation.BandStartsOnToolResultIff` says
  exactly when, and
  `Conversation.BandMayStartOnToolResult` shows an instance.
- A stub embeds the tool's name. It references exactly its original if and only if the name
  closes every marker it opens and names no other id in them (`Stubs.StubReferencesIff`). A
  whole marker in the name adds a reference that was never stored
  (`Stubs.StubMayReferenceMore`); a name that only opens one swallows the stub's text and the
  original is no longer referenced (`Stubs.OpenNameLosesTheOriginal`).
- The extractive summary joins first sentences with ` | `. A summary references an id that no
  turn referenced if and only if, among the parts it shows, one that leaves a marker open comes
  before one with a closing bracket (`SummaryMarkers.SummaryForgesIff`, for ids that do not
  contain the separator; `SummaryMarkers.SummaryMayForgeAReference` is an instance).
- The summary is cut at 800 bytes, and the cut may fall inside a marker. The summary of tidy
  turns is tidy again if and only if it does not (`TidyTexts.SummaryIsTidyIff`). A summary cut
  inside a marker still references only ids of its turns, and a session never summarises it
  again: the compaction that writes it also folds and pins it (`CutSummaries.HeadIsFolded`,
  `CutSummaries.DraftIsReadable`).
- A focus hint is documented never to evict a diagnostic log line. The boost itself never
  does, but the context of a focused line can bring in diagnostics that no bucket selected,
  and these can evict others (`LogFocus.FocusMayEvict`, for every limit).
  `LogFocus.DiagnosticKeptIff` gives the exact condition.
- A bucket of errors may exceed its maximum when the first and the last line are forced in
  (`LogSelection.BucketOverrunsIff`, `LogSelection.BucketMayOverrun`).
- A native frame stores its two header lengths in 32 bits, so a payload comes back exactly if
  and only if both are below 2^32 (`FjallStore.NativeRoundTripIff`).
- A summary fold covers the run of missing originals from the first one on, so it may absorb
  an adjacent dropped message. `FoldAudit.FoldsCoverExactly` therefore says that a missing
  original is covered once, not by which kind of fold.
- `drop_old` trusts its running total. It equals a recount for additive counters such as the
  default one (`DropOld.RunningIsTheCount`, `DropOld.DefaultCounterIsAdditive`); the final
  verdict is recounted and exact for every counter (`Budget.VerdictIsExact`).

## Model

| member | source | states |
|---|---|---|
| Agent.TailIsShortestCover | crates/ogham/src/agent.rs:146-168 | the protected tail is the shortest suffix whose estimated tokens reach the budget, or everything if none does |
| Agent.TailStaysProtected | crates/ogham/src/agent.rs:146-168 | a list that still ends in the protected tail protects at least that tail again, so the mask may be recomputed after every step |
| Agent.ProtectedTailMask | crates/ogham/src/agent.rs:146-168 | the mask marks exactly the positions of the protected tail |
| Agent.RecentAssistantPreserveCount | crates/ogham/src/agent.rs:205-211 | the count is the length of the suffix that holds the newest `keep` assistant replies |
| Agent.EffectiveLimit | crates/ogham/src/budget.rs:63-69 | what is held back of the total covers the margin by less than one token; a margin of zero or less holds nothing back, and the limit is zero only when less than one token would be left |
| Agent.LimitIsTheAllowance | crates/ogham/src/budget.rs:63-69 | a count is within the effective limit if and only if it is within what the margin leaves of the total, before any rounding |
| Agent.RecentAssistantMask | crates/ogham/src/agent.rs:184-202 | the mask marks exactly the newest `keep` assistant replies |
| Agent.ApplyAgentCompression | crates/ogham/src/agent.rs:228-308 | clearing newest to oldest with counters rewrites exactly the clearable tool results that lie before the protected tail and beyond the recent ones, and saves exactly their originals |
| Agent.ClearedIff | crates/ogham/src/agent.rs:228-308 | a message is cleared if and only if it is an unpinned successful tool result, the messages after it cover the protected budget, at least `keep_tool_results` newer results were clearable too, and policy, store and write allow it; every other message is verbatim |
| Agent.ClearsOnlyToolOutput | crates/ogham/src/agent.rs:228-308 | only unpinned tool output is ever cleared, and never a failed one, unless the host classified the message itself |
| Agent.ClearingIsReversible | crates/ogham/src/agent.rs:255-303 | a cleared message names, in its metadata, an id under which its original content was saved |
| Conversation.AlignBandStart | crates/ogham/src/conversation.rs:218-226 | the decrementing loop finds the nearest earlier start that is not a tool result |
| Conversation.BandStartsOnToolResultIff | crates/ogham/src/conversation.rs:62-72 | after alignment and clamping, a non-zero band start is a tool result if and only if the first pinned message before the aligned start is one |
| Conversation.BandMayStartOnToolResult | crates/ogham/src/conversation.rs:62-72 | a call, its pinned result and two later turns are such a list |
| Conversation.CompressConversationHistory | crates/ogham/src/conversation.rs:48-121 | draining and re-inserting in place yields summary (or nothing), rewritten middle and verbatim recent suffix, with the pinned ones put back |
| Conversation.PrefixBecomesSummary | crates/ogham/src/conversation.rs:62-86 | a summarising pass puts exactly one system message in the place of a non-empty prefix, with the summary as the compressor returns it; otherwise none |
| Conversation.BandIsCompressed | crates/ogham/src/conversation.rs:62-121 | every message after the prefix is verbatim when pinned or recent, and otherwise has the text the compressor returned for it, with its id when the text changed |
| Conversation.HistoryKeepsRecent | crates/ogham/src/conversation.rs:62-121 | the recent suffix is untouched |
| Conversation.HistoryKeepsPinned | crates/ogham/src/conversation.rs:62-112 | the pinned messages are the same, verbatim and in order, before and after a band pass, for every pipeline outcome |
| Groups.ParseIsPartition | crates/ogham/src/budget.rs:192-211 | the scan cuts every list into consecutive groups: an assistant message with the tool run after it, or a single other message |
| Groups.RescanCoarsens | crates/ogham/src/budget.rs:192-211 | scanning again after a removal finds a group that is a concatenation of whole earlier groups |
| Groups.ScanStep | crates/ogham/src/budget.rs:192-211 | each step of a re-scan swallows whole groups and leaves the rest aligned |
| DropOld.FindDroppableGroup | crates/ogham/src/budget.rs:192-211 | the inner scan finds the first droppable group from the start of the list |
| DropOld.DropOldGroups | crates/ogham/src/budget.rs:161-228 | the outer loop with its running total removes what the specification removes and reports it in order |
| DropOld.StopsOnlyWhen | crates/ogham/src/budget.rs:161-228 | the loop stops only within the limit, at four messages, or without a droppable group, and never goes below four |
| DropOld.RunningIsTheCount | crates/ogham/src/budget.rs:160-221 | for an additive counter the running total equals a recount at every loop head, and every further round starts over the limit |
| DropOld.DefaultCounterIsAdditive | crates/ogham-core/src/token.rs:31-37 | the default counter is additive over concatenation |
| DropOld.DropKeepsTail | crates/ogham/src/budget.rs:161-228 | the protected tail of the list entering the loop is the suffix of the list leaving it |
| DropOld.DropKeepsWhere | crates/ogham/src/budget.rs:166-192 | messages of any protected class (system, error, pinned) are all kept, verbatim and in order |
| DropOld.DropKeepsLatestUser | crates/ogham/src/budget.rs:162-186 | the latest user message is still there and still the latest, although its index moves |
| DropOld.DropKeepsFirst | crates/ogham/src/budget.rs:161-228 | a protected first message is still the first |
| DropChoice.OldestGoesFirst | crates/ogham/src/budget.rs:166-211 | the group taken out is the first one whose removal leaves four messages and none of whose members is in the protected tail, the newest user query, a system message, a tool error or pinned; when none is found, no group is like that |
| DropChoice.HeldByRole | crates/ogham/src/budget.rs:166-192 | system messages, failed tool output, pinned messages and the last user message are held in the list by their role, unless the host classified messages itself |
| DropChoice.RefusesOnlyAtTheEnd | crates/ogham/src/budget.rs:161-241 | on refusal at most four messages are left, or no group of what is left is like that |
| DropOld.DropKeepsGroupsWhole | crates/ogham/src/budget.rs:161-228 | over the whole loop every initial group is kept whole or dropped whole, in order, and together they are the initial list |
| Budget.EnforceBudget | crates/ogham/src/budget.rs:54-241 | the cascade with its early exits returns the specified list, saves, drops, applied steps and verdict; it is Ok with no step applied, and everything unchanged, if and only if the initial count leaves the margin of the total free, and the verdict compares the final count with that same allowance |
| Budget.UntouchedIff | crates/ogham/src/budget.rs:63-84 | a list is accepted as it is, with no step applied, if and only if its count leaves the margin free; otherwise clearing runs |
| Budget.AgentKeepsTail | crates/ogham/src/budget.rs:85-89 | clearing leaves the protected tail untouched |
| Budget.BandKeepsTail | crates/ogham/src/budget.rs:95-140 | with the computed `preserve_recent` a band pass leaves the protected tail, the recent assistant replies and the last four messages untouched |
| Budget.ProtectedTailSurvives | crates/ogham/src/budget.rs:54-241 | on every exit, accepted or refused, the initial protected tail is the suffix of the list |
| Budget.PinnedSurvive | crates/ogham/src/budget.rs:85-228 | the pinned messages survive the whole cascade verbatim and in order |
| Budget.VerdictIsExact | crates/ogham/src/budget.rs:231-241 | the verdict is Ok if and only if a recount fits the effective limit; on refusal nothing more could be dropped |
| Budget.MiddleFoldsNothing | crates/ogham/src/budget.rs:95-119 | the middle pass compresses from the front of the list and folds no prefix away |
| Budget.SummaryLeads | crates/ogham/src/budget.rs:122-228 | when the cascade goes on to summarise and there is a prefix to fold, its result begins with the summary of that prefix, however many groups are dropped afterwards |
| Provenance.CascadeLineage | crates/ogham/src/budget.rs:85-228 | every message leaving the cascade descends from one initial message in increasing order, or is a fresh summary; every pinned one descends from itself; everything dropped descends from an initial message |
| Markers.CollectMarkers | crates/ogham/src/ccr/mod.rs:187-199 | the scanning loop collects exactly the ids enclosed in closed markers, left to right |
| Markers.MessageRefs | crates/ogham/src/ccr/mod.rs:177-182 | a message references its metadata id and its markers |
| Markers.ReferencedCcrIds | crates/ogham/src/ccr/mod.rs:175-184 | the live set is the union over all messages |
| Stubs.StubReferencesIff | crates/ogham/src/agent.rs:278-303 | a cleared stub references its original's id and nothing else if and only if the tool name closes the markers it opens and names no other id |
| Stubs.StubMayReferenceMore | crates/ogham/src/agent.rs:278-303 | a tool named like a marker adds a reference to an id never stored |
| Stubs.ClosedNameShows | crates/ogham/src/agent.rs:278-303 | a name that closes its markers adds exactly its own references to the stub |
| Stubs.OpenNameLosesTheOriginal | crates/ogham/src/agent.rs:278-303 | a tool name that is just an opening bracket makes the stub reference something else |
| MarkerScans.PrefixMarkers | crates/ogham/src/ccr/mod.rs:187-199 | cutting a text short only loses references |
| MarkerScans.JoinMarkers | crates/ogham/src/ccr/mod.rs:187-199 | after a text that closes its markers the scan starts afresh |
| MarkerScans.JoinUnclosed | crates/ogham/src/ccr/mod.rs:187-199 | a marker left open swallows what follows up to the next closing bracket |
| MarkerScans.JoinDangling | crates/ogham/src/ccr/mod.rs:187-199 | without a later closing bracket nothing that follows an open marker is referenced |
| Summaries.SummariseTurns | crates/ogham/src/conversation.rs:254-276 | the loop computes the joined first sentences, cut to 800 bytes |
| Summaries.PartIs | crates/ogham/src/conversation.rs:254-263 | a turn contributes its text up to the first sentence end, without the white space around it |
| Summaries.CutIsTheLongestThatFits | crates/ogham/src/conversation.rs:241-250 | a prefix fits the byte limit if and only if it is no longer than the cut, which falls on a character boundary |
| SummaryMarkers.PartMarkers | crates/ogham/src/conversation.rs:257-263 | a trimmed first sentence references nothing its turn does not, and is closed when the sentence is |
| SummaryMarkers.JoinedMarkers | crates/ogham/src/conversation.rs:268 | parts that do not straddle reference nothing new when joined, and closed parts join to a closed text |
| SummaryMarkers.StraddlingForges | crates/ogham/src/conversation.rs:268 | parts that straddle join to a text with a marker across the separator |
| SummaryMarkers.SummaryReferencesItsTurns | crates/ogham/src/conversation.rs:254-276 | a summary whose parts do not straddle references only ids its turns referenced, truncated or not |
| SummaryMarkers.SummaryForgesIff | crates/ogham/src/conversation.rs:254-276 | a summary, cut or not, references a new id if and only if among the parts it shows an unclosed one comes before one with a closing bracket |
| SummaryMarkers.SummaryMayForgeAReference | crates/ogham/src/conversation.rs:254-276 | two turns without references join into a text that references one |
| TidyTexts.FlatIsLinked | crates/ogham/src/compact.rs:485-490 | the id a fold record takes from a text without directly nested markers is one the reference scan finds |
| TidyTexts.StubIsTidy | crates/ogham/src/agent.rs:278-303 | a stub is tidy and references exactly its original when the name opens no marker and the key fits one |
| TidyTexts.SummaryIsTidyIff | crates/ogham/src/conversation.rs:254-276 | however it is cut, the summary of tidy turns nests no markers and references only what the turns did; its first sentence is closed if and only if the 800-byte cut spares its markers |
| FoldTagLists.NormalisedIsSmallest | crates/ogham/src/fold_tags.rs:257-262 | sort, dedup and truncate give the 64 smallest values in strict order |
| FoldTagLists.SmallestIsUnique | crates/ogham/src/fold_tags.rs:257-262 | that description determines the list |
| FoldTagLists.MergeOfNormalised | crates/ogham/src/fold_tags.rs:97-111 | capping first loses nothing: merging normalised lists equals normalising the union |
| FoldTagLists.MergeValues | crates/ogham/src/fold_tags.rs:97-111 | the merge works on the three kinds of tag separately and skips an empty side |
| FoldTagLists.ReindexedTagsAreTheSmallestOfTheUnion | crates/ogham/src/fold_tags.rs:97-111 | normalising and merging any number of lists, newest first, gives the 64 smallest of their union, whatever the order |
| RecallRuns.ReplayCarries | crates/ogham/src/recall.rs:85-116 | after any sequence of indexing and removal, whatever happened to other ids, an id has a document exactly when it was indexed since its last removal, with the merge of the tags given since then |
| RecallRuns.DocumentTagsAreTheSmallest | crates/ogham/src/recall.rs:85-116 | so each document carries, per kind, the 64 smallest of all tags observed for its id since its last removal |
| SessionIndex.FoldsAreTaggedByCover | crates/ogham/src/compact.rs:420-468 | a fold carries the normalised tags of exactly the messages it covers |
| SessionIndex.IndexFollowsItsHistory | crates/ogham/src/session.rs:184-208 | over any session run the index is what its history of indexing folds and removing evicted ids makes of it |
| SessionIndex.SessionTagsAreTheSmallest | crates/ogham/src/session.rs:184-208 | in every session each indexed document carries the 64 smallest tags observed in the messages folded under its id |
| SessionIndex.SessionSearchFinds | crates/ogham/src/session.rs:184-208 | in every session a search not cut short finds an id if and only if the text of the messages last folded under it, and not evicted since, shares a term with the query |
| Recall.RecallIndex.constructor | crates/ogham/src/recall.rs:67-69 | a new index is empty |
| Recall.RecallIndex.Index | crates/ogham/src/recall.rs:85-109 | indexing replaces the document of that id, with merged tags |
| Recall.RecallIndex.Remove | crates/ogham/src/recall.rs:112-116 | removal drops exactly that id and says whether it was there |
| Recall.RecallIndex.Search | crates/ogham/src/recall.rs:120-178 | the hits are the best `limit` of exactly the documents sharing a term with the query, each once, by score descending and id ascending |
| Recall.RecallIndex.FindByTag | crates/ogham/src/recall.rs:184-194 | the filter loop and sort compute the specified hits |
| Recall.TaggedHitsAreExact | crates/ogham/src/recall.rs:184-194 | a tag lookup finds exactly the documents carrying the tag, whatever its case, each once, in id order |
| Recall.PositiveScoreIffSharedTerm | crates/ogham/src/recall.rs:137-165 | a score is positive if and only if a term is shared, so the positive-score filter loses nothing |
| Recall.HitsAreTheSharers | crates/ogham/src/recall.rs:137-170 | the scored hits are exactly the documents sharing a term |
| Recall.RankedHits | crates/ogham/src/recall.rs:166-178 | sorting and truncating the hits gives the specified search result, without repeats |
| RecallScores.RarerWeighsMore | crates/ogham/src/recall.rs:137-151 | of two terms the one in fewer documents has the larger weight |
| RecallScores.ScoreRewards | crates/ogham/src/recall.rs:137-165 | a term scores higher than another when it is at least as rare, occurs at least as often in a document at most as long, and one of these strictly |
| RecallScores.DocumentsHoldTheLatestText | crates/ogham/src/recall.rs:85-116 | after any sequence of indexing and removal the document of an id holds the terms of the text it was last indexed with |
| RecallScores.FoundIff | crates/ogham/src/recall.rs:85-178 | a search not cut short by its limit finds an id if and only if the text it was last indexed with, and not forgotten since, shares a term with the query |
| Recall.IndexedFacts | crates/ogham/src/recall.rs:85-109 | ids stay unique, exactly one id is added, other documents stay |
| Recall.WithoutFacts | crates/ogham/src/recall.rs:112-116 | ids stay unique, exactly one id goes, other documents stay |
| Compact.TagOriginalIndices | crates/ogham/src/compact.rs:255-264 | every message is tagged with its index and the value it displaced is kept |
| Compact.TagThenRestore | crates/ogham/src/compact.rs:255-288 | restoring after tagging gives back the original message and its index, whatever it carried under that key |
| Compact.RecordReplacements | crates/ogham/src/compact.rs:300-319 | the first loop restores tags and records a fold for exactly the changed messages |
| Compact.RecordSummary | crates/ogham/src/compact.rs:321-343 | the summary fold takes the first run of missing originals |
| Compact.RecordDrops | crates/ogham/src/compact.rs:345-360 | every remaining missing original gets a drop fold, with the id of a stub it was cleared to |
| Compact.BuildFoldRecords | crates/ogham/src/compact.rs:290-367 | the whole builder equals the specification, restored messages and sorted folds |
| FoldAudit.FoldsCoverExactly | crates/ogham/src/compact.rs:290-367 | each original index is covered by exactly one fold if it is missing or changed, and by none otherwise |
| FoldAudit.FoldsAreDisjoint | crates/ogham/src/compact.rs:360-367 | fold ranges are non-empty, sorted and disjoint |
| FoldAudit.FoldsSorted | crates/ogham/src/compact.rs:360-366 | folds are sorted by start and replacement index |
| FoldAudit.TokensAreConserved | crates/ogham/src/compact.rs:420-468 | fold tokens plus the tokens of untouched originals are the original content tokens |
| FoldMarks.ReplacementIff | crates/ogham/src/compact.rs:290-367 | the replacement indices of the folds are exactly the outputs that differ from their original, and the summary that stands in for missing ones |
| FoldContents.FoldsRecord | crates/ogham/src/compact.rs:369-490 | every fold holds the roles and tokens of the messages it covers, and either the kind, tokens, marker and id of the output that replaced them or, for one dropped message, the id and marker of the stub it was dropped as |
| FoldContents.ClearedIsRecorded | crates/ogham/src/compact.rs:369-468 | when no compressor reports another id for a stub, a fold covering a cleared tool result carries the key of its text, unless it is the summary fold or nothing reported as dropped came from that message |
| FoldContents.ClearedHasARecord | crates/ogham/src/compact.rs:300-319 | when only the clearing ran, a cleared message that changed has a fold of its own, marked as cleared, with the key of its text |
| Compaction.ApplyCachePolicy | crates/ogham/src/compact.rs:492-544 | annotations are cleared and set again on the last system message and the last stable message only |
| Compaction.AnnotationsAre | crates/ogham/src/compact.rs:492-544 | the annotation sits exactly on the last system message and on the last message before the volatile suffix unless a system message follows; nothing else of any message changes |
| Compaction.CompactConversation | crates/ogham/src/compact.rs:157-232 | the call refuses exactly when the cascade does, with the recount and the limit; otherwise it returns the restored, annotated messages with their folds |
| Compaction.OriginsAreSources | crates/ogham/src/compact.rs:157-232 | the index tag of every output is the index of the message it descends from, through every step of the cascade |
| Compaction.CompactionIsOrdered | crates/ogham/src/compact.rs:157-232 | the surviving index tags are strictly increasing |
| Compaction.AuditIsExact | crates/ogham/src/compact.rs:157-232 | for every input the folds account exactly for what the cascade did, index by index and token by token |
| Compaction.PinnedIsUntouched | crates/ogham/src/compact.rs:157-232 | a pinned message is returned verbatim with its own index, and no fold covers it |
| FoldIds.CandidatesDiffer | crates/ogham/src/session.rs:333-336 | different suffixes give different candidate ids |
| FoldIds.TakenShrinks | crates/ogham/src/session.rs:333-340 | each taken candidate leaves fewer used ids ahead, so the suffix search ends |
| FoldIds.FindFreshId | crates/ogham/src/session.rs:331-340 | the search returns the first free candidate |
| FoldIds.UniquifyFoldIds | crates/ogham/src/session.rs:325-342 | the loop renames exactly the folds whose id is taken |
| FoldIds.LedgerStaysDistinct | crates/ogham/src/session.rs:173-175 | a ledger of distinct ids stays so when the renamed folds are appended |
| Retention.EvictOldest | crates/ogham/src/session.rs:242-262 | the rewrite loop removes the first `n` finalized messages |
| Retention.EvictsOldest | crates/ogham/src/session.rs:242-262 | the evicted messages are the finalized ones of a prefix, `n` of them; the rest of the prefix and everything after it are kept in order |
| Retention.EvictionCutsFrozen | crates/ogham/src/session.rs:242-262 | in the list of finalized messages eviction cuts off the first `n` |
| Session.ContextSession.constructor | crates/ogham/src/session.rs:107-114 | a new session is empty |
| Session.ContextSession.Push | crates/ogham/src/session.rs:117-119 | a push appends one message and changes nothing else |
| Session.ContextSession.PinWorking | crates/ogham/src/session.rs:161-167 | finalized messages enter the compaction pinned |
| Session.MarkingIsExact | crates/ogham/src/session.rs:176-182 | marking sets both flags on every message some new fold names as its replacement, touches nothing else of it, and no other message |
| Session.ContextSession.MarkFolded | crates/ogham/src/session.rs:176-182 | every message a new fold names as its replacement comes out finalized and pinned, otherwise as it was, and every other message is untouched |
| Session.JoinedParts | crates/ogham/src/session.rs:191-199 | the indexed text of a span is the texts of its messages with a line break between them |
| Session.ContextSession.IndexNewFolds | crates/ogham/src/session.rs:187-203 | every new fold with an id is indexed with the original text it stands for, unless that is empty |
| Session.ContextSession.ApplyRetention | crates/ogham/src/session.rs:235-275 | the list is retained as specified and the deletable ids are those only evicted messages reference |
| Session.ContextSession.DeleteOriginals | crates/ogham/src/session.rs:275-288 | exactly the ids whose delete succeeds leave the store and the index; the others stay in both |
| Session.ContextSession.Compact | crates/ogham/src/session.rs:158-229 | one compact call moves the snapshot as the transition says, in which exactly the replacements of the new folds are finalized before retention; a refused call changes only what the cascade saved |
| SessionRuns.CompactionKeepsPinned | crates/ogham/src/session.rs:158-186 | a compaction keeps pinned messages verbatim and in order, index tags restored |
| SessionRuns.FrozenStep | crates/ogham/src/session.rs:158-289 | an accepted compact keeps every finalized message (cache annotation aside) in order among the finalized messages of its draft, and retention takes away exactly the first of these so that at most `max_finalized` remain |
| SessionRuns.FoldsSpareFinalized | crates/ogham/src/session.rs:158-186 | no new fold covers the index of a finalized message |
| FoldMarks.FoldedIsFinal | crates/ogham/src/session.rs:176-182 | the replacement of every new fold is in the draft, finalized and pinned, with the content and the other metadata of the compaction output |
| FoldMarks.FinalizedIff | crates/ogham/src/session.rs:158-182 | after a compaction a message is finalized if and only if it replaces a new fold or comes from a finalized message; the others are the annotated outputs |
| SessionRuns.LedgerIsAppendOnly | crates/ogham/src/session.rs:173-221 | over any run the old ledger is a prefix of the new one and all fold ids are distinct |
| SessionRuns.FinalizedStayFrozen | crates/ogham/src/session.rs:158-289 | over any run the finalized messages are, verbatim and in order, among those retention took away since, followed by those still there; nothing is taken away when all are kept |
| SessionRuns.OnlyTheOldestGo | crates/ogham/src/session.rs:158-289 | so a first part of them was evicted, in order, and all the others are still in the prompt |
| FoldMarks.DraftStaysFrozen | crates/ogham/src/session.rs:158-289 | over any run after a compact, everything finalized by it is, in order, among what retention took away since, followed by what is still there |
| FoldMarks.FoldedStaysFinal | crates/ogham/src/session.rs:158-289 | what an accepted compact folded is, at every later point, a finalized message with the folded content, in the prompt or among those retention took away |
| SessionStore.NeverDeletesReferenced | crates/ogham/src/session.rs:275-288 | no deleted id is referenced by the messages that remain |
| SessionStore.DeletesExactlyOrphans | crates/ogham/src/session.rs:235-289 | of the stored originals exactly those go that an evicted message referenced, that the prompt no longer references, and whose delete succeeds under a collecting policy |
| SessionStore.CompactKeepsRetrievable | crates/ogham/src/session.rs:158-289 | a compact keeps every named id stored, including when deletes fail |
| SessionStore.EverythingNamedIsStored | crates/ogham/src/session.rs:158-289 | over any run of quiet pushes and honest compressors, wherever summaries are cut, every id the prompt or the index names is in the store |
| CutSummaries.WorkedOrder | crates/ogham/src/budget.rs:85-228 | after the cascade messages carry increasing index tags and are readable, except for at most one fresh summary at the front, and then no message carries the first index |
| CutSummaries.HeadIsFolded | crates/ogham/src/compact.rs:321-343 | a fresh summary at the front is the replacement of the summary fold |
| CutSummaries.DraftIsReadable | crates/ogham/src/session.rs:158-186 | after a compaction every message is pinned or closes the markers of its first sentence, a summary cut inside a marker being pinned by its own fold |
| StoredTexts.RunIsAddressed | crates/ogham/src/session.rs:158-289 | over any run the key of a text leads to that text wherever the store holds it |
| StoredTexts.SavedTextsStay | crates/ogham/src/session.rs:158-289 | a text saved under its key stays in the store, verbatim, until retention deletes that key |
| StoredTexts.OriginalsComeBack | crates/ogham/src/session.rs:158-293 | in every session, for any key of a text that the prompt references or the index offers, the store gives back that text |
| SessionStore.RetrievableMeans | crates/ogham/src/ccr/mod.rs:175-199 | that invariant puts all referenced ids and all indexed ids in the store |
| SessionStore.StubIsSound | crates/ogham/src/agent.rs:278-303 | a cleared stub names only the id just saved |
| AnthropicRender.CollectToolUseIds | crates/ogham/src/providers/anthropic.rs:270-281 | the ids of all tool calls of a segment |
| AnthropicRender.CollectToolResultIds | crates/ogham/src/providers/anthropic.rs:284-298 | the ids of all tool results of a segment |
| AnthropicRender.RenderAssistantSegment | crates/ogham/src/providers/anthropic.rs:301-329 | answered calls are rendered natively, every other tool block as text |
| AnthropicRender.RenderUserSegment | crates/ogham/src/providers/anthropic.rs:332-365 | the first result of each pending call is rendered natively and first, everything else after it |
| AnthropicRender.RenderCacheControlRich | crates/ogham/src/providers/anthropic.rs:169-256 | coalescing, rendering, skipping empty segments and merging turns equals the specified payload |
| AnthropicPairing.SegmentsAlternate | crates/ogham/src/providers/anthropic.rs:169-215 | segments are non-empty and alternate sides |
| AnthropicPairing.ToolCallsArePaired | crates/ogham/src/providers/anthropic.rs:169-365 | turns are non-empty and alternate; the native calls of an assistant turn are exactly the native results of the next turn, a user turn answers exactly the turn before it, even across skipped segments |
| AnthropicConservation.SegmentsPartition | crates/ogham/src/providers/anthropic.rs:169-215 | segments hold exactly the non-system messages, in order |
| AnthropicConservation.NothingLostOrDoubled | crates/ogham/src/providers/anthropic.rs:169-365 | every block of every non-system message is rendered exactly once in the turns |
| AnthropicConservation.EveryBlockShowsItsSource | crates/ogham/src/providers/anthropic.rs:301-475 | every rendered block shows the source block at its position, part by part: calls are native only for the assistant, results only for the others, and everything else is the text the block stands for |
| AnthropicConservation.TurnsHaveTheirSide | crates/ogham/src/providers/anthropic.rs:188-250 | a turn is an assistant turn if and only if the messages rendered in it are the assistant's |
| AnthropicConservation.SystemKeepsEverything | crates/ogham/src/providers/anthropic.rs:369-394 | every block of every system message is rendered exactly once in the system field, as its own text |
| AnthropicOrder.TurnsKeepShape | crates/ogham/src/providers/anthropic.rs:259-268 | assistant turns keep source order; user turns have their native results first, with pairwise distinct ids, then the rest, even after merging |
| AnthropicOrder.CallsMatchOneToOneIff | crates/ogham/src/providers/anthropic.rs:301-365 | native calls meet native results one to one if and only if no call id occurs twice in the turn; results never repeat an id |
| AnthropicBreakpoints.BreakpointsAreSound | crates/ogham/src/providers/anthropic.rs:193-250 | a breakpoint sits after all blocks of the non-system messages up to an annotated one and before all blocks of later ones |
| AnthropicBreakpoints.BreakpointsAreFew | crates/ogham/src/providers/anthropic.rs:193-250 | breakpoints never outnumber annotated messages |
| AnthropicRuns.BreakpointsAppear | crates/ogham/src/providers/anthropic.rs:193-250 | a run of messages of one side that ends with an annotated one and holds any block ends in a breakpoint |
| AnthropicRuns.AnsweredCallsAreNative | crates/ogham/src/providers/anthropic.rs:216-365 | a call in an assistant run and a result with its id in the run right after it are both native, in consecutive turns |
| LogStripper.FocusSeparates | crates/ogham/src/compressors/log_stripper.rs:659-679 | the focus score lies strictly between every plain line and every diagnostic |
| LogStripper.ParseLines | crates/ogham/src/compressors/log_stripper.rs:426-456 | the state machine marks a line as a stack line exactly when it belongs to a trace, and scores it |
| LogStripper.TraceIff | crates/ogham/src/compressors/log_stripper.rs:426-456 | a line belongs to a trace exactly when the line that opened it reaches it: nothing between ends it and the cap is not met |
| LogStripper.HeadersAreStackLines | crates/ogham/src/compressors/log_stripper.rs:434-452 | a line that looks like a trace header is a stack line even right after another trace |
| LogStripper.CutKeepsTheBest | crates/ogham/src/compressors/log_stripper.rs:546-557 | the cut keeps line order, as many lines as fit, and only lines outranking every cut one |
| LogStripper.KeptIff | crates/ogham/src/compressors/log_stripper.rs:546-557 | a candidate survives if and only if fewer candidates than the limit rank above it |
| LogTiers.RanksByTier | crates/ogham/src/compressors/log_stripper.rs:512-557 | scores order lines exactly by fifteen tiers of level, trace, summary and focus, and by line number within a tier |
| LogTiers.BetterTiersFirst | crates/ogham/src/compressors/log_stripper.rs:546-557 | once a line is kept, every candidate of a better tier and every earlier one of its own is kept |
| LogTiers.KeptIffFewBefore | crates/ogham/src/compressors/log_stripper.rs:458-558 | a line is kept if and only if it is a candidate and fewer candidates than the limit come before it by tier and line |
| LogTiers.FailuresBeforeWarnings | crates/ogham/src/compressors/log_stripper.rs:659-679 | a warning that is not both in a trace and a summary is kept only when every candidate error and failure is |
| LogTiers.FlagsAndLevelsLift | crates/ogham/src/compressors/log_stripper.rs:659-679 | below errors and failures, trace and summary lines come before plain lines of their level, summaries before traces, and with equal flags warnings before information before debug before trace output |
| LogTiers.MatchesBeforePlain | crates/ogham/src/compressors/log_stripper.rs:512-529 | a plain line that matches the focus is kept before every plain line that does not |
| LogSelection.SelectWithFirstLast | crates/ogham/src/compressors/log_stripper.rs:560-596 | the loop computes the specified bucket |
| LogSelection.FirstLastKeepsTheBest | crates/ogham/src/compressors/log_stripper.rs:560-596 | a bucket that fits is kept; otherwise the forced ends and the best of the rest, of exactly the maximum length unless the ends alone exceed it |
| LogSelection.BucketOverrunsIff | crates/ogham/src/compressors/log_stripper.rs:560-596 | the maximum is exceeded if and only if the forced ends alone exceed it |
| LogSelection.BucketMayOverrun | crates/ogham/src/compressors/log_stripper.rs:560-596 | with room for one line and both ends forced in, two lines are kept |
| LogSelection.DedupeSimilar | crates/ogham/src/compressors/log_stripper.rs:598-608 | the loop keeps the first line of each normalised text |
| LogSelection.DedupeKeepsOnePerText | crates/ogham/src/compressors/log_stripper.rs:598-608 | every text keeps exactly one representative |
| LogSelection.Collect | crates/ogham/src/compressors/log_stripper.rs:462-488 | one pass fills the buckets and the stack runs |
| LogSelection.RunsAreTheStackLines | crates/ogham/src/compressors/log_stripper.rs:468-488 | the runs are non-empty and together are the stack lines in order |
| LogSelection.SelectCore | crates/ogham/src/compressors/log_stripper.rs:487-511 | the ordered set holds exactly the lines the buckets pick |
| LogBuckets.BucketsTake | crates/ogham/src/compressors/log_stripper.rs:458-511 | all errors, failures and warnings within their maximum are taken, the first lines of the first traces, and every summary line when these are kept |
| LogBuckets.StackPickIff | crates/ogham/src/compressors/log_stripper.rs:468-511 | the traces contribute exactly the lines at the first offsets of the first traces |
| LogBuckets.WarningTextsAreTaken | crates/ogham/src/compressors/log_stripper.rs:598-608 | with deduplication every warning text is represented while the distinct texts fit the maximum |
| LogBuckets.DedupeKeepsTheFirst | crates/ogham/src/compressors/log_stripper.rs:598-608 | the representative of a text is its first line |
| LogBuckets.BucketsTakeDiagnostics | crates/ogham/src/compressors/log_stripper.rs:458-511 | every line a bucket takes is an error, a failure, a warning, in a trace or a summary |
| LogSelection.ApplyFocus | crates/ogham/src/compressors/log_stripper.rs:512-529 | matching lines enter, or replace their entry, with the raised score; nothing is demoted |
| LogSelection.AddContext | crates/ogham/src/compressors/log_stripper.rs:530-545 | the candidates are the selected lines and everything within the context distance of one |
| LogBuckets.CandidatesHaveAReason | crates/ogham/src/compressors/log_stripper.rs:512-545 | every candidate is within the context distance of a diagnostic or of a line that matches the focus |
| LogBuckets.ContextIsCandidate | crates/ogham/src/compressors/log_stripper.rs:530-545 | everything within that distance of a taken or matching line is a candidate |
| LogSelection.SelectLines | crates/ogham/src/compressors/log_stripper.rs:458-558 | the whole selection is the ranked cut of the candidates |
| LogFocus.SelectionKeepsTheBest | crates/ogham/src/compressors/log_stripper.rs:458-558 | the result is a strictly line-ordered part of the candidates, at most the limit, and every kept line outranks every cut one |
| LogFocus.PlainKeptMeansDiagnosticsKept | crates/ogham/src/compressors/log_stripper.rs:512-529 | if any plain line is kept, focused or not, every candidate error, fail, warning, stack and summary line is kept |
| LogFocus.DiagnosticKeptIff | crates/ogham/src/compressors/log_stripper.rs:512-557 | under a focus a candidate diagnostic survives if and only if fewer diagnostics than the limit rank above it |
| LogFocus.FocusSparesDiagnostics | crates/ogham/src/compressors/log_stripper.rs:512-557 | a focus that brings in no further diagnostic keeps exactly the same diagnostics |
| LogFocus.FocusMayEvict | crates/ogham/src/compressors/log_stripper.rs:512-557 | for every limit there is a log, given as parsed lines, in which a focus evicts a diagnostic through its context lines |
| LogFocus.SubstringsReadCrowd | crates/ogham/src/compressors/focus.rs:44-49 | case-insensitive substring matching meets what that log asks of the focus matcher |
| Crusher.ComputeSplit | crates/ogham/src/compressors/smart_crusher.rs:115-134 | first, last and importance shares add up to the total |
| Crusher.CrushStringArray | crates/ogham/src/compressors/smart_crusher.rs:136-213 | more than 8 strings: every error, every length anomaly and both end slices are kept in order, extras repeat no kept text, the size is at most the total plus errors and anomalies, and room left over is filled: below that cap the text of every sampled position is kept |
| Crusher.SampleStrings | crates/ogham/src/compressors/smart_crusher.rs:146-204 | the index set behind that result |
| Crusher.CrushNumberArray | crates/ogham/src/compressors/smart_crusher.rs:215-325 | outliers, change points and both end slices are kept in order; beyond them it fills only up to the total plus the outliers, and below that cap every sampled position is kept |
| Crusher.CrushObject | crates/ogham/src/compressors/smart_crusher.rs:327-420 | a crushed object keeps its error fields, its small fields and both ends, unchanged and in order, and when these leave room every sampled position up to the cap |
| Crusher.FillFields | crates/ogham/src/compressors/smart_crusher.rs:391-411 | the stride loop whose cap grows with each kept error field stays within the total plus all error fields, and either reaches that or keeps every sampled position |
| ArraySampling.CrushDictArray | crates/ogham/src/compressors/smart_crusher.rs:621-685 | records are kept verbatim and in order, both end slices and the most relevant in between, as many as the optimal size leaves room for; the full array is queued for saving exactly when a record was dropped and markers are on |
| ArraySampling.SampleDicts | crates/ogham/src/compressors/smart_crusher.rs:643-669 | the index set behind that result |
| ArraySampling.CrushMixedArray | crates/ogham/src/compressors/smart_crusher.rs:687-809 | kind by kind, exactly what is kept: small and unsampled groups whole, records and strings where their text is among the sampled ones, numbers at both ends and as outliers |
| Pruning.PrunesItself | crates/ogham/src/compressors/smart_crusher.rs:522-525 | leaving a value alone is pruning |
| Pruning.VerbatimPrunes | crates/ogham/src/compressors/smart_crusher.rs:534-589 | keeping some elements verbatim, with a sentinel where the rule asks for one, is pruning |
| Pruning.DropFields | crates/ogham/src/compressors/smart_crusher.rs:600-616 | leaving out fields of a pruned object is pruning |
| SmartCrusher.ProcessValue | crates/ogham/src/compressors/smart_crusher.rs:513-619 | the recursion computes the crushed value at its depth, and the saves only grow |
| SmartCrusher.ProcessArray | crates/ogham/src/compressors/smart_crusher.rs:528-595 | sampled arrays are sampled by kind, all others element by element one level deeper |
| SmartCrusher.ProcessObject | crates/ogham/src/compressors/smart_crusher.rs:597-616 | fields are crushed first and chosen afterwards |
| SmartCrusher.CrushingPrunes | crates/ogham/src/compressors/smart_crusher.rs:513-619 | at every depth scalars are verbatim, arrays are order-preserving parts of pruned elements with at most one sentinel, objects are key subsets with pruned values |
| SmartCrusher.ShortStaysVerbatim | crates/ogham/src/compressors/smart_crusher.rs:513-619 | a value whose arrays and objects are all shorter than the minimum comes back verbatim |
| SmartCrusher.SaveAll | crates/ogham/src/compressors/smart_crusher.rs:844-849 | saves go in order up to the first failure, and what was saved before it stays under its key |
| SmartCrusher.Compress | crates/ogham/src/compressors/smart_crusher.rs:824-856 | Ok exactly when every save succeeds; then the data is the pruned input, every pending save is in the store, and so is the whole text under the returned id |
| SmartCrusher.DroppedRecordsAreStored | crates/ogham/src/compressors/smart_crusher.rs:669-682 | on Ok an array of objects still has all its records or ends in a sentinel whose key leads to the full array in the store |
| Utf8.NoHighBytes | crates/ogham/src/ccr/fjall.rs:6-10 | no byte above 0xF4 occurs in UTF-8 text (section 4 of RFC 3629) |
| CcrCodec.EncodeHex | crates/ogham/src/ccr/mod.rs:130-137 | the loop writes two digits per byte |
| CcrCodec.HexRoundTrip | crates/ogham/src/ccr/mod.rs:130-151 | every byte string comes back from its hex form |
| CcrCodec.HexReads | crates/ogham/src/ccr/mod.rs:139-151 | decoding succeeds if and only if the text is an even number of hex digits, and gives the values of the pairs |
| CcrCodec.EnvelopeRoundTrip | crates/ogham/src/ccr/mod.rs:72-128 | every payload, text or binary, comes back exactly from its envelope |
| CcrCodec.EnvelopesQuoteText | crates/ogham/src/ccr/mod.rs:72-86 | the envelope of a text payload quotes its bytes and only that of a binary one spells them in hexadecimal |
| CcrCodec.TextsReadBack | crates/ogham/src/ccr/mod.rs:92-128 | a stored text reads as what its fields say if it is a marked object with media type, data and a known encoding, and as plain text with its own bytes and no metadata otherwise |
| CcrCodec.ReadingIsUnique | crates/ogham/src/ccr/mod.rs:92-128 | that description determines the payload |
| FjallStore.BuildNative | crates/ogham/src/ccr/fjall.rs:14-27 | the buffer is magic, two length-prefixed header chunks and the raw bytes |
| FjallStore.ReadU32 | crates/ogham/src/ccr/fjall.rs:30-35 | reads four little-endian bytes and advances, or fails and stays |
| FjallStore.ReadChunkAt | crates/ogham/src/ccr/fjall.rs:38-44 | reads one length-prefixed chunk and the position after it |
| FjallStore.DecodeFrame | crates/ogham/src/ccr/fjall.rs:56-80 | classifies stored bytes as plain, framed or malformed |
| FjallStore.NativeRoundTripIff | crates/ogham/src/ccr/fjall.rs:14-80 | a frame comes back exactly if and only if both header chunks are shorter than 2^32 |
| FjallStore.CutFrame | crates/ogham/src/ccr/fjall.rs:56-80 | a frame cut inside its magic is plain, inside its header chunks malformed, and inside its bytes a shorter payload, each if and only if |
| FjallStore.TextIsNeverAFrame | crates/ogham/src/ccr/fjall.rs:6-10 | saved text is never taken for a frame |
| FjallStore.EntriesComeBack | crates/ogham/src/ccr/fjall.rs:133-196 | what both read operations return for each kind of entry, including the refusal to read binary as text, and plain text with its own bytes for a saved text that is not an envelope |
| FjallStore.StoreIsATypedMap | crates/ogham/src/ccr/fjall.rs:121-196 | over any history of saves and deletes the byte store behaves as a map of typed values |
| FjallStore.Store.constructor | crates/ogham/src/ccr/fjall.rs:94-106 | a new store is empty |
| FjallStore.Store.SaveText | crates/ogham/src/ccr/fjall.rs:123-131 | a text is kept under its id |
| FjallStore.Store.SaveTyped | crates/ogham/src/ccr/fjall.rs:168-179 | a payload is kept as envelope or frame, depending on its bytes |
| FjallStore.Store.Remove | crates/ogham/src/ccr/fjall.rs:157-162 | exactly that id goes |
| FjallStore.Store.Retrieve | crates/ogham/src/ccr/fjall.rs:133-155 | a saved text comes back; a binary payload is refused |
| FjallStore.Store.RetrievePayload | crates/ogham/src/ccr/fjall.rs:181-196 | a saved payload comes back exactly; a saved text comes back as plain text with its own bytes unless it is an envelope, and then as what its fields say |
| Decimal.ParseOfText | crates/ogham/src/compact.rs:259-273 | an index written in decimal parses back to itself |

## Left out

- Integer width: lengths and counts are unbounded; only the 32-bit frame lengths wrap in the model.
- Floating point: fractions, scores and margins are reals. `as usize` truncation and round-half-even are written out; rounding error is not.
- Budget.EnforceBudget: which margin a counter asks for is a parameter, and the report keeps the applied steps, the outcome and the dropped messages but not its statistics.
- Agent.ApplyAgentCompression: does not model its statistics record, metrics or observers, because they change no message.
- Conversation.CompressConversationHistory: does not model its statistics record, nor the variant with an external summarizer.
- Classification of message text (error patterns, the first 512 bytes) is an uninterpreted predicate; metadata precedence and roles are modelled.
- DefaultCompressionPipeline is an arbitrary one-to-one rewriting that keeps role, length and metadata and may add an id when the content changed; the compressors it dispatches to are modelled only where they appear above.
- SessionStore.EverythingNamedIsStored: supposes that pushed messages carry no reference and open no marker in their tool name or first sentence, that compressors embed only ids they were given or saved, nest no markers, leave closed first sentences closed and keep the opening words of a summary they do not close, and that content keys fit a marker inside one sentence; `Stubs`, `SummaryMarkers` and `TidyTexts` give the exact conditions.
- StoredTexts.OriginalsComeBack: supposes injective keys and compressors that save texts under their content keys.
- Session.ContextSession.DeleteOriginals: deletes a set in one step; the order of the awaited deletes is not modelled, their individual failures are.
- Compaction.ApplyCachePolicy: models no policy and the Anthropic one; the other providers set no annotations, and the cache plan's report is left out.
- Recall.RecallIndex.Index: term extraction and the raw tags of a text are uninterpreted (their normalisation is not); previews are left out.
- Recall.RecallIndex.Search: the logarithm is any function that is strictly monotone with ln 1 = 0.
- AnthropicRender.RenderCacheControlRich: JSON construction is a datatype of blocks, a message's metadata is its cache annotation, and blocks carry their source position, which the original does not store.
- Markers.CollectMarkers: works on characters, not on UTF-8 bytes; the marker brackets are ASCII.
- LogSelection.SelectLines: level, trace and summary detection, text normalisation and focus matching are uninterpreted, and the adaptive limit is a parameter.
- Log format detection, output formatting and the retrieval marker of the log compressor: they only print.
- Crusher.CrushStringArray: the optimal size, error keywords, length anomalies, outliers and change points are uninterpreted functions of the items; the strategy strings are left out.
- Crusher.CrushObject: keys stand for their positions, since the keys of an object are distinct.
- ArraySampling.CrushMixedArray: visits the groups in a fixed order instead of order of first appearance; only record groups save anything, so the result is the same.
- SmartCrusher.Compress: content is text (not lossily decoded bytes), JSON text is an uninterpreted print, and keys are injective.
- CcrCodec.EnvelopeRoundTrip: JSON text is any print and parse pair where printed values read back.
- FjallStore: persistence and I/O errors; the partition is a map from id to bytes.
- The server, the SQLite store, the in-memory store's expiry, other providers' reports, the remaining compressors and the rich-message glue: plumbing or easy members beside the cores above.
