# AISUS core, modelled in Dafny

AISUS is a Telegram assistant that runs both as a bot and as a user-bot. It keeps a
**two-tier conversation memory** for every chat:

- **Recent turns**, stored with their token counts.
- **Long summaries**, with an importance and a usage counter.

When the recent turns outgrow their budget, the oldest stretch is compressed into one long summary.
To answer, the assistant assembles a context from three parts:

1. the system prompt;
2. the long summaries most relevant to the query, within a budget;
3. the recent turns.

Around that memory sit many small deterministic rules:

- token accounting;
- the summarizer's fallback and response parsing;
- the legacy in-memory chat histories, which never prune system messages;
- password authentication, statistics counters, and command and mention predicates;
- the agent's trigger and `/think` rules, and source de-duplication;
- media classification, video frame thinning and the media-mention flow;
- glossary term extraction and thread summaries;
- the web-search cache and its TTL rules;
- the SQL-script splitter and the migration runner;
- the participant hooks and the environment configuration.

This project models those rules and proves properties of them, mostly one Dafny module per source
file:

- `Tokens` (tokens.dfy): core/tokens.py
- `Summarizer` (summarizer.dfy): memory/summarizer.py
- `MemoryStore` (memory_store.dfy): db/memory_repository.py
- `Manager` (memory_manager.dfy): memory/manager.py
- `LegacyHistory` (legacy_history.dfy): chat_history_manager.py
- `HistoryStore` (history_store.dfy): src/store/memory_store.py
- `Glossary` (glossary.dfy): knowledge/glossary.py
- `Threads` (threads.dfy): knowledge/threads.py
- `Auth` (auth.dfy): src/aisus/services/auth.py
- `Stats` (stats.dfy): src/aisus/services/stats.py
- `Commands` (commands.dfy): src/aisus/handlers/command_handler.py
- `MessageRouter` (message_router.dfy): src/aisus/handlers/message_router.py
- `ConfigParser` (config_parser.dfy): src/aisus/config_parser.py
- `AgentRunner` (agent_runner.dfy): agent/runner.py
- `AgentLlm` (agent_llm.dfy): agent/llm.py
- `WebSearch` (web_search.dfy): agent/tools/web_search.py
- `MessageLogic` (message_logic.dfy): app/message_logic.py
- `Admin` (admin.dfy): commands/admin.py
- `MediaRouter` (media_router.dfy): media/router.py
- `Downloader` (downloader.dfy): media/downloader.py
- `Video` (video.dfy): media/video.py
- `SearchCache` (search_cache.dfy): db/search_repository.py
- `DbConnection` (db_connection.dfy): db/connection.py
- `Migrate` (migrate.dfy): db/migrate.py
- `Hooks` (hooks.dfy): db/hooks.py

Five modules are shared rather than tied to one file:

- `History` (history.dfy): the message list and the prune rule that both chat-history managers use.
- `Mentions` (mentions.dfy): the `@username` removal that the message flow and the media router both perform.
- `Strings`, `Sequences` and `Wrappers`: the Python string, list and `Optional` built-ins the source relies on.

The modules take the form the source has:

- **Pure code** becomes datatypes, functions and lemmas.
- **Code that mutates state** becomes a class:
  - the memory store, the memory manager, the two chat-history managers;
  - the statistics and auth services;
  - the connection pool holder and the migration log.
- Its methods carry `modifies` clauses. Their `ensures` tie the new state to specification
  functions, and lemmas prove what the source promises about those functions.
- **Loops in the source** stay loops, with invariants:
  - the budget trim;
  - the block accumulation and the ranking walk;
  - the prune loop;
  - the history searches;
  - the SQL splitter;
  - the migration loop.

Shared helpers live in `wrappers.dfy` (Option and Result), `strings.dfy` (Python string
operations) and `sequences.dfy` (Python slicing, stable sorting, striding and de-duplication).

Python semantics are written out where they matter:

- `[:k]` slicing with negative `k`, and `str.splitlines`;
- `int()` parsing;
- `//` on signed values and truncation toward zero;
- round-half-even formatting;
- `strip`, `lower`, `or` truthiness and `re.sub` over mentions.

Everything outside the program is a parameter of the model:

- the language model's replies;
- tool results, transcriptions and image descriptions;
- clocks, the environment, directory listings and the database's current rows.

## Model

| member | source | states |
|---|---|---|
| Tokens.ModelKey | core/tokens.py:15 | `model or "gpt-4o-mini"`: a given non-empty model id is kept, anything else becomes the default model |
| Tokens.CountText | core/tokens.py:27-34 | an empty text costs 0; without an encoder a text of length L costs ⌈L/4⌉ (4(n-1) < L ≤ 4n); with one, the number of token ids |
| Tokens.CountMessagesAppend | core/tokens.py:36-42 | the message count is additive over concatenation |
| Tokens.CountMessagesAtLeastTax | core/tokens.py:36-42 | every message costs at least its 4-token tax, so a list costs at least 4·n |
| Tokens.CountMessagesSlice | core/tokens.py:36-42 | a contiguous slice never costs more than the list it is cut from |
| Tokens.DropFront | core/tokens.py:51-52 | popping from the front leaves a suffix of the list that is empty or within budget |
| Tokens.DropFrontLongest | core/tokens.py:51-52 | the pops stop at the longest suffix that fits: every longer suffix was over budget |
| Tokens.FirstOverflow | core/tokens.py:47-49 | the first prefix length whose count exceeds the budget, with every shorter prefix within it; `None` if every prefix fits |
| Tokens.FirstOverflowIs | core/tokens.py:47-49 | a prefix length that overflows while all shorter ones fit is the one the loop breaks at |
| Tokens.PopWhileOver | core/tokens.py:55-56 | the final pop loop computes `DropFront` |
| Tokens.BudgetTrim | core/tokens.py:44-57 | the append loop with its `break` and both pop loops compute `TrimSpec` |
| Tokens.TrimFits | core/tokens.py:49-56 | the result is within budget (or empty when the budget is negative) |
| Tokens.TrimSlice | core/tokens.py:46-56 | the result is the whole input when nothing overflows, else a contiguous run `ms[n-k..n]` ending at the first overflowing message |
| Tokens.TrimSliceWhole | core/tokens.py:46-57 | when no prefix overflows, nothing is dropped |
| Tokens.TrimSpecAt | core/tokens.py:49-56 | after an overflow at message n, the result is the front pops applied to the first n messages and then the final front pops |
| Tokens.TrimSliceAt | core/tokens.py:49-56 | after an overflow at message n the result is a run of the input ending at message n |
| Tokens.TrimBounds | core/tokens.py:44-57 | the result is `ms[j..k]` for some bounds `j ≤ k ≤ len(ms)` |
| Tokens.TrimWholeFits | core/tokens.py:46-57 | a list that fits comes back unchanged |
| Tokens.TrimFirstTooBig | core/tokens.py:49-53 | a first message that alone exceeds the budget gives the empty list |
| Tokens.EncoderCache.constructor | core/tokens.py:12 | the encoder cache starts empty |
| Tokens.EncoderCache.Resolve | core/tokens.py:20-23 | a model `encoding_for_model` does not know gets the `cl100k_base` fallback |
| Tokens.EncoderCache.GetEncoder | core/tokens.py:14-25 | no tokenizer gives `None`; a cached model gets its stored encoder and the cache is unchanged; a miss stores the resolved encoder under the model id |
| Tokens.EncoderCache.CountTokensText | core/tokens.py:27-34 | an empty text costs 0 without touching the cache; without a tokenizer the ⌈L/4⌉ estimate is used and the cache is unchanged; otherwise a cached model keeps the cache as it was, and a miss stores the resolved encoder under the model id and changes no other key; the count uses that encoder |
| Summarizer.BlockLines | memory/summarizer.py:14-20 | at most one line per message |
| Summarizer.BlockLinesAppend | memory/summarizer.py:15-20 | lines come in message order: the lines of a concatenation are the concatenated lines |
| Summarizer.BlockLinesOne | memory/summarizer.py:16-20 | a message with blank stripped content adds no line; otherwise it adds `role: text`, the role defaulting to "user" |
| Summarizer.FormatBlockEmptyIff | memory/summarizer.py:13-21 | the block is empty exactly when every message's stripped content is empty |
| Summarizer.CaptureEnd | memory/summarizer.py:49 | the lazy capture stops at the first position where `\n+\w+:` or `$` matches |
| Summarizer.SkipSpaces | memory/summarizer.py:49 | `\s*` stops at the first non-whitespace character |
| Summarizer.CaptureFrom | memory/summarizer.py:49 | `.+?` captures at least one character |
| Summarizer.SummaryMarkerAbsent | memory/summarizer.py:49-51 | without "ПІДСУМОК:" the summary is the whole stripped reply |
| Summarizer.SummaryAfterMarker | memory/summarizer.py:49-51 | with text after the first marker, the summary is the stripped capture from the first non-space after it up to the first terminator |
| Summarizer.Fraction | memory/summarizer.py:50-53 | a digit string after "0." denotes a value in [0, 1) |
| Summarizer.NumberAt | memory/summarizer.py:50-53 | `[0-1](?:\.\d+)?` parses to a value in [0, 2), below 1 when it starts with 0 |
| Summarizer.ImportanceFrom | memory/summarizer.py:50 | the value after the first marker followed by 0 or 1, or `None` when no position matches |
| Summarizer.Clamp | memory/summarizer.py:59 | `max(0.0, min(1.0, x))` lies in [0, 1], keeps values already in range and caps larger ones at 1 |
| Summarizer.ImportanceDefault | memory/summarizer.py:50-55 | without a usable importance marker the importance is 0.5 |
| Summarizer.ImportanceMarkerAbsent | memory/summarizer.py:50-53 | a reply without "ВАЖЛИВІСТЬ:" has importance 0.5 |
| Summarizer.SummarizeBlock | memory/summarizer.py:23-61 | a failed call or a `None` content raises; with no client the summary is the first 200 characters of the block at importance 0.5; with a reply the parsed summary and importance; importance always in [0, 1]; tokens always the count of the final summary |
| MemoryStore.SumTokensConcat | db/memory_repository.py:21-23 | the token sum is additive over concatenation |
| MemoryStore.ApplyLimit | db/memory_repository.py:16-17 | a missing or zero limit keeps every row; a positive one keeps the first `limit` rows; a negative one is an SQL error |
| MemoryStore.LongBeforeTotalPreorder | db/memory_repository.py:42 | "importance descending, then last use descending with NULL as the epoch" is a total, transitive order |
| MemoryStore.Bumped | db/memory_repository.py:50 | every row is bumped exactly when its id is listed |
| MemoryStore.BumpedDependsOnSetOfIds | db/memory_repository.py:49-50 | `IN (…)` depends only on the set of ids: repeats and order make no difference |
| MemoryStore.BumpedCounts | db/memory_repository.py:50 | a listed row gains exactly one use; an unlisted row is unchanged |
| MemoryStore.FilterKeepsPosOrder | db/memory_repository.py:15-26 | selecting rows keeps them in ascending `pos` order |
| MemoryStore.Store.constructor | db/memory_repository.py:7-50 | both tables start empty, with the store invariant |
| MemoryStore.Store.InsertRecent | db/memory_repository.py:7-12 | exactly one row is appended with the next `pos`; the long table is unchanged |
| MemoryStore.Store.FetchRecent | db/memory_repository.py:14-19 | only the chat's rows, in `pos` order, cut to a truthy limit |
| MemoryStore.Store.RecentTotalTokens | db/memory_repository.py:21-23 | the sum of the chat's row tokens, 0 when it has none |
| MemoryStore.Store.DeleteRecentUptoPos | db/memory_repository.py:25-26 | exactly the chat's rows with `pos <= upto` are removed; every other row stays, in order |
| MemoryStore.Store.InsertLongSummary | db/memory_repository.py:30-35 | one long row is appended with usage 0, the given summary, importance and tokens, and last use now |
| MemoryStore.Store.FetchLongAll | db/memory_repository.py:37-43 | the chat's long rows, as a permutation, sorted by the importance-then-last-use order |
| MemoryStore.Store.BumpLongUsage | db/memory_repository.py:45-50 | the long rows become `Bumped` (an empty list changes nothing); the recent table is unchanged |
| Manager.TruncToInt | memory/manager.py:35 | Python `int()` on a float truncates toward zero |
| Manager.BlockLength | memory/manager.py:41-46 | the compressed block is the shortest prefix, by `pos`, whose tokens reach the target, or every row when none does; no rows give an empty block |
| Manager.DeleteRemovesBlock | memory/manager.py:44-55 | deleting up to the last block row's `pos` removes exactly the chat's first k rows and leaves every other chat's rows unchanged |
| Manager.AfterPosIsSuffix | memory/manager.py:55 | in a `pos`-ordered list, keeping the rows after the k-th one's `pos` leaves exactly the rows from k on |
| Manager.ChatRowsOrdered | memory/manager.py:36 | a chat's rows are in ascending `pos` order |
| Manager.QueryWords | memory/manager.py:62 | every query word is longer than two characters |
| Manager.MatchesPositive | memory/manager.py:67-68 | the summed counts are positive exactly when some query word occurs in the text |
| Manager.ScorePositiveIff | memory/manager.py:57-69 | a score is never negative, and positive exactly when the text is non-empty and contains a lowercased query word of 3+ characters |
| Manager.Score | memory/manager.py:57-69 | the counting loop computes `ScoreSpec`: 0 for an empty text or query or no long word, else Σ count(w) / (len/1000 + 1) |
| Manager.RankingSortedPermutation | memory/manager.py:83 | the ranking is ordered by descending final score, is a permutation of the scored rows, and rows of equal score keep their fetch order (the sort is stable) |
| Sequences.SortByStable | memory/manager.py:83 | elements that the order ties together leave the sort in their input order |
| Manager.GreedyWithinBudget | memory/manager.py:85-100 | the selected summaries cost at most the budget |
| Manager.GreedySubsequence | memory/manager.py:88-100 | the selection keeps ranking order and takes only ranked rows |
| Manager.GreedySkipsTooCostly | memory/manager.py:94-95 | a row that costs more than the whole budget is never selected |
| Manager.RecentPartShape | memory/manager.py:114-118 | the recent part is every recent message when they fit, else a contiguous run of them within a non-negative budget |
| Manager.MemoMsgsShape | memory/manager.py:96 | every long-memory message is a system message starting with `[LONG-MEMO] ` |
| Manager.SelectionWithinBudget | memory/manager.py:71-101 | the summaries selected for a chat cost at most `LONG_BUDGET` |
| Manager.MemoryManager.constructor | memory/manager.py:18 | the manager holds its settings and store |
| Manager.MemoryManager.AppendMessage | memory/manager.py:25-27 | exactly one recent row is inserted, with the dialog model's token count; the long table is unchanged and no budget check runs |
| Manager.MemoryManager.EnsureBudget | memory/manager.py:29-55 | within budget, or without rows, nothing changes; otherwise the oldest `BlockLength` rows are summarized, one long summary is inserted and exactly those rows are deleted; a failed summarizer call changes nothing |
| Manager.MemoryManager.CollectBlock | memory/manager.py:37-46 | the accumulation loop with its `break` yields the `BlockLength` rows and the `pos` of the last one |
| Manager.MemoryManager.SelectLongRelevant | memory/manager.py:71-101 | the messages and ids of the greedy selection over the ranked chat summaries; none for a chat without summaries |
| Manager.MemoryManager.ScoreAll | memory/manager.py:76-81 | the scoring loop gives each row its final score `0.7·score + 0.3·(importance or 0.5)` |
| Manager.MemoryManager.WalkRanking | memory/manager.py:85-101 | the loop with `continue` and `break` computes the greedy selection |
| Manager.MemoryManager.SelectContext | memory/manager.py:103-122 | the context is the stripped system prompt if truthy, then the `[LONG-MEMO]` messages, then the recent messages (trimmed only when over budget); exactly the selected ids are bumped and the recent table is unchanged |
| History.TotalLengthConcat | chat_history_manager.py:20-25 | the history length Σ len(content) is additive over concatenation |
| History.InsertAt | chat_history_manager.py:40-45 | `list.insert(i, m)` puts `m` at `min(i, len)` and keeps everything else in order |
| History.RemoveAt | chat_history_manager.py:33 | `list.pop(i)` removes one entry and shortens the length by that entry's content |
| History.FirstNonSystem | chat_history_manager.py:31-32 | the oldest non-system entry, with every entry before it a system entry; `None` exactly when all are system entries |
| History.FindFirstNonSystem | src/store/memory_store.py:36-39 | the inner `for` loop finds `FirstNonSystem` |
| History.PruneAsWrittenDiverges | chat_history_manager.py:29-34 | once only system entries remain over the limit, the loop as written never reaches a fitting history, for any number of iterations |
| History.SystemOnlyHistoryNeverPrunes | src/store/memory_store.py:35-39 | a history holding one 14-character system message never fits a limit of 5, so `prune_history(chat, 5)` does not return |
| History.PruneSpec | chat_history_manager.py:27-34 | the corrected prune never grows the history: no more entries and no more length |
| History.PruneLoop | src/store/memory_store.py:35-39 | the `while` loop, stopping when no non-system entry is left, computes `PruneSpec` |
| History.PruneAsWrittenAgrees | chat_history_manager.py:29-34 | wherever pruning can reach the limit, the loop as written ends within as many iterations as the history has entries, with the same history as `PruneSpec` |
| History.PruneAsWrittenUnfold | chat_history_manager.py:29-34 | over the limit, one more iteration of the loop as written is one pop of the oldest non-system entry |
| History.PruneSpecAdvance | chat_history_manager.py:29-34 | over the limit where pruning can finish, one pop leaves a history one entry shorter that prunes to the same result |
| History.PruneAsWrittenAdvance | chat_history_manager.py:29-34 | over the limit, the loop as written after one pop is the loop on the popped history with one iteration fewer |
| History.PruneCanStep | chat_history_manager.py:29-34 | a history over the limit that pruning brings within it still has a non-system entry to pop |
| History.PruneSpecStuck | chat_history_manager.py:29-34 | over the limit with no non-system entry left, the corrected prune stops |
| History.PruneSpecStep | chat_history_manager.py:29-34 | over the limit, the corrected prune pops the oldest non-system entry and continues |
| History.PruneFits | src/store/memory_store.py:31-39 | afterwards the history fits or holds only system entries; a history that already fits is untouched |
| History.RemoveFirstNonSystem | chat_history_manager.py:31-34 | one pass keeps every system entry and drops exactly the oldest non-system one |
| History.DropFirstOther | src/store/memory_store.py:35-39 | removing a non-system entry with only system entries before it keeps the system entries and drops exactly that entry from the others |
| History.PruneKeepsSystemDropsOldest | src/store/memory_store.py:35-39 | pruning keeps every system entry, in order, and what remains of the others is a suffix of them in the original order |
| History.SystemPrepended | src/store/memory_store.py:41-46 | the first entry ends up with the content: the history is unchanged or gained one system entry in front |
| History.SystemPrependedIdempotent | src/store/memory_store.py:45-46 | adding the same system message twice is the same as adding it once |
| LegacyHistory.VoiceAffixAdded | chat_history_manager.py:43-45 | afterwards the affix is present; a history already holding it is unchanged; otherwise a system entry is inserted at index 1 |
| LegacyHistory.VoiceAffixRemovedMembers | chat_history_manager.py:46-48 | after removal no entry has the affix content, whatever its role, and every other entry stays |
| LegacyHistory.VoiceAffixRoundTrip | chat_history_manager.py:42-48 | adding the affix to a history without it and then removing it gives the original history back |
| LegacyHistory.ChatHistoryManager.constructor | chat_history_manager.py:3-4 | no chat has a history |
| LegacyHistory.ChatHistoryManager.GetHistory | chat_history_manager.py:17-18 | the chat's history, `[]` for an unknown chat |
| LegacyHistory.ChatHistoryManager.AddMessage | chat_history_manager.py:6-9 | one entry is appended, the list created on first use; no other chat changes |
| LegacyHistory.ChatHistoryManager.AddUserMessage | chat_history_manager.py:11-12 | appends a user entry with content `name: content` |
| LegacyHistory.ChatHistoryManager.AddBotMessage | chat_history_manager.py:14-15 | appends an assistant entry |
| LegacyHistory.ChatHistoryManager.CalculateHistoryLength | chat_history_manager.py:20-25 | the loop computes Σ len(content), 0 for an unknown chat |
| LegacyHistory.ChatHistoryManager.PruneHistory | chat_history_manager.py:27-34 | a known chat's history becomes `PruneSpec` of it; an unknown chat changes nothing |
| LegacyHistory.ChatHistoryManager.AddSystemMessage | chat_history_manager.py:36-40 | a new chat gets `[system]`; a known chat gains a front system entry unless its first entry has the content; an empty list raises `IndexError` and changes nothing |
| LegacyHistory.ChatHistoryManager.AddOrUpdateVoiceMessage | chat_history_manager.py:42-48 | an unknown chat raises `KeyError`; with transcribed text the affix is added as in `VoiceAffixAdded`, without it every entry with that content is removed |
| HistoryStore.AffixAdded | src/store/memory_store.py:48-56 | afterwards the affix is present; an empty history becomes `[affix]`; one already holding it is unchanged; otherwise it is inserted at 1, or at 0 for a one-entry history |
| HistoryStore.AffixAddedIdempotent | src/store/memory_store.py:48-56 | adding the affix twice is the same as adding it once |
| HistoryStore.AffixRemovedMembers | src/store/memory_store.py:58-62 | afterwards no system entry has the affix; every other entry stays; a history without it is unchanged |
| HistoryStore.AffixRoundTrip | src/store/memory_store.py:48-62 | removing after adding gives what removing alone gives |
| HistoryStore.ChatHistoryManager.constructor | src/store/memory_store.py:8-9 | no chat has a history |
| HistoryStore.ChatHistoryManager.GetHistory | src/store/memory_store.py:25-26 | the chat's history, `[]` for an unknown chat |
| HistoryStore.ChatHistoryManager.CalculateHistoryLength | src/store/memory_store.py:28-29 | Σ len(content), 0 for an unknown chat |
| HistoryStore.ChatHistoryManager.AddMessage | src/store/memory_store.py:11-14 | one entry is appended at the end, the list created on first use, and the length grows by the content's length |
| HistoryStore.ChatHistoryManager.ClearHistory | src/store/memory_store.py:16-17 | the chat is removed, a no-op for an absent chat |
| HistoryStore.ChatHistoryManager.AddUserMessage | src/store/memory_store.py:19-20 | appends a user entry with content `name: content` |
| HistoryStore.ChatHistoryManager.AddBotMessage | src/store/memory_store.py:22-23 | appends an assistant entry |
| HistoryStore.ChatHistoryManager.PruneHistory | src/store/memory_store.py:31-39 | a stored history becomes `PruneSpec` of it; an absent chat changes nothing |
| HistoryStore.ChatHistoryManager.AddSystemMessage | src/store/memory_store.py:41-46 | the history becomes `SystemPrepended` of it (`[system]` for a new chat) |
| HistoryStore.ChatHistoryManager.AddSystemVoiceAffixIfNotExist | src/store/memory_store.py:48-56 | the history becomes `AffixAdded` of it |
| HistoryStore.ChatHistoryManager.RemoveSystemVoiceAffixIfExist | src/store/memory_store.py:58-62 | an absent or empty history is left alone; otherwise it becomes `AffixRemoved` of it |
| Glossary.Normalize | knowledge/glossary.py:16-24 | a token is kept iff, stripped and lowercased, it has at least three characters, all `[\w-]`, and is not a stopword; it is then kept in that form |
| Glossary.NormalizeIdempotent | knowledge/glossary.py:16-24 | a normalised term normalises to itself |
| Glossary.NormalizedGood | knowledge/glossary.py:29-34 | every kept term is lowercase, at least three `[\w-]` characters long and not a stopword |
| Glossary.ExtractSpecShape | knowledge/glossary.py:26-41 | the extracted terms have no repeats, are all good terms, and are exactly the normalised tokens of the text |
| Glossary.ExtractSpecOrder | knowledge/glossary.py:35-41 | the terms are listed in the order of their first occurrence |
| Glossary.ExtractTerms | knowledge/glossary.py:26-41 | the two loops compute the de-duplicated normalised tokens; an empty text gives none |
| Glossary.UpsertAllCounts | knowledge/glossary.py:48-49 | with distinct terms each listed term gains exactly one use, a new one starting at 1 with status `new`; no other row changes and no other row appears |
| Glossary.FirstEligible | knowledge/glossary.py:58-66 | the first term whose row exists, has at least the minimum usage and is `new` (or `NULL`); `None` iff there is none |
| Glossary.FirstEligibleAt | knowledge/glossary.py:58-66 | an eligible term with no eligible term before it is the one the loop picks |
| Glossary.FindEligible | knowledge/glossary.py:58-66 | the suggestion loop, skipping terms without a row, returns `FirstEligible` |
| Glossary.GlossaryService.constructor | knowledge/glossary.py:7-10 | the settings as given and no suggestion time recorded |
| Glossary.GlossaryService.ProcessUserText | knowledge/glossary.py:43-66 | every extracted term is upserted once; a suggestion is made only with suggestions enabled and at least 120 s after the chat's last one; it names the first eligible term, and only then is the chat's suggestion time moved to now |
| Threads.KindFromFlags | knowledge/threads.py:11-16 | the kind is the first set flag in the order photo, voice, video, document, and text when none is set |
| Threads.RootFor | knowledge/threads.py:18-22 | the replied message's stored root when it is set and non-zero, else the replied id |
| Threads.ThreadBlockShape | knowledge/threads.py:38-43 | the block has at most one entry per message, each a non-blank user line from one of the messages |
| Threads.ThreadBlockOldestFirst | knowledge/threads.py:39-43 | without blank messages the block lists every message, the oldest first |
| Threads.BuildBlock | knowledge/threads.py:38-43 | the `reversed` loop computes that block |
| Threads.ThreadSummaryNoWork | knowledge/threads.py:29-46 | no messages, an existing summary off the every-N beat, or only blank messages mean no summary is written |
| Threads.BlankThreadBlock | knowledge/threads.py:41-42 | only blank messages give an empty block |
| Threads.ThreadSummaryWrite | knowledge/threads.py:45-49 | a written summary is the summarizer's summary of the non-empty block |
| Threads.BuildThreadSummaryIfNeeded | knowledge/threads.py:24-49 | returns what `ThreadSummarySpec` says: no write, the summary written, or the error raised (a zero every-N with a summary present, or a summarizer failure) |
| Threads.PtbPlanShape | knowledge/threads.py:52-75 | exactly one insert, with the kind from the flags; a reply first upserts its thread and its insert carries that root; only a reply with a non-zero root refreshes the summary, after the insert |
| Auth.AuthenticateSpec | src/aisus/services/auth.py:11-23 | an authorised chat passes with no reply; otherwise the chat passes iff the password is empty or equals the text (or caption) with `@bot` removed and stripped, and is then flagged and told so; a failure changes nothing and asks for the password |
| Auth.EnsureAuthSpec | src/aisus/services/auth.py:25-34 | a command passes iff the chat is authorised or no password is set, and then without a reply; with a password set the flags never change |
| Auth.FlagsOnlyGrow | src/aisus/services/auth.py:18-31 | no flag is ever cleared and no other chat's entry changes |
| Auth.MentionIgnored | src/aisus/services/auth.py:16-17 | `@bot pw` is compared as `pw` |
| Auth.NoAtReplace | src/aisus/services/auth.py:17 | replacing `@bot` leaves a text without `@` unchanged |
| Auth.AuthService.constructor | src/aisus/services/auth.py:7-9 | no chat is authorised |
| Auth.AuthService.Authenticate | src/aisus/services/auth.py:11-23 | the answer, the reply and the new flags are those of `AuthenticateSpec` |
| Auth.AuthService.EnsureAuthForCommand | src/aisus/services/auth.py:25-34 | the answer, the reply and the new flags are those of `EnsureAuthSpec` |
| Stats.FileSearchCount | src/aisus/services/stats.py:33 | the number of records that used file search: at most the number of records, zero iff none did |
| Stats.TruncToInt | src/aisus/services/stats.py:35 | `int(x)` truncates toward zero |
| Stats.FloorDiv | src/aisus/services/stats.py:31-32 | `a // b` is the floor of the quotient |
| Stats.StatsService.constructor | src/aisus/services/stats.py:6-12 | all counters are zero and there are no records |
| Stats.StatsService.RecordIncoming | src/aisus/services/stats.py:14-15 | only `messages_in` moves, by one |
| Stats.StatsService.RecordOutgoing | src/aisus/services/stats.py:17-27 | both token totals grow by the call's tokens, `messages_out` by one, and one record with the total is appended; the totals stay the sums of the records |
| Stats.StatsService.GetStats | src/aisus/services/stats.py:29-43 | the counters as they are, the averages as floor quotients by `max(1, messages_out)`, the file-search count of the records and a non-negative uptime not above the elapsed time |
| Stats.NothingSentZeroAverages | src/aisus/services/stats.py:30-33 | before any answer both averages and the file-search count are zero |
| Stats.OneSentAverages | src/aisus/services/stats.py:30-33 | after one answer the sums are that answer's tokens |
| Stats.SumsAppend | src/aisus/services/stats.py:18-27 | the token sums and the file-search count are additive over the records |
| Commands.FirstTokenOfCommand | src/aisus/handlers/command_handler.py:154 | a text starting with `/` has a first token, which starts with `/` |
| Commands.CommandForMe | src/aisus/handlers/command_handler.py:147-157 | in a group or supergroup a command passes iff its stripped text starts with `/`, its first token holds `@bot` and the command auth check passes; elsewhere only the auth check decides; a refused group command changes no flag and sends nothing |
| Commands.AddressedCommand | src/aisus/handlers/command_handler.py:149-156 | `/cmd@bot` is addressed to the bot |
| Commands.LastBotIndex | src/aisus/handlers/command_handler.py:46-51 | the index where the reversed search stops: the last assistant entry with non-blank string content, `None` iff there is none |
| Commands.FindLastBotText | src/aisus/handlers/command_handler.py:44-51 | the reversed loop with `break` returns that entry's text, or `None` |
| Commands.LastBotAt | src/aisus/handlers/command_handler.py:46-51 | an accepted entry with no accepted entry after it is the one found |
| Commands.ResendAction | src/aisus/handlers/command_handler.py:40-63 | without a bot text the fixed reply is sent; otherwise the text spoken is one of the history's assistant texts |
| Commands.SplitUptime | src/aisus/handlers/command_handler.py:74-75 | hours, minutes and seconds recombine to the uptime, with minutes and seconds below 60 |
| Commands.ModSplit | src/aisus/handlers/command_handler.py:75 | the remainder after hours splits into minutes and seconds |
| Commands.AudioAction | src/aisus/handlers/command_handler.py:86-101 | the text spoken is the arguments joined by spaces and stripped; a blank one gives only the fixed reply |
| Commands.BlankArgsNoSpeech | src/aisus/handlers/command_handler.py:89-92 | blank or missing arguments never reach speech synthesis |
| Commands.JoinBlank | src/aisus/handlers/command_handler.py:89 | blank arguments joined by spaces are blank |
| Commands.RemoveFileAction | src/aisus/handlers/command_handler.py:123-135 | without arguments only the fixed reply; otherwise the stripped first argument is removed |
| Commands.CommandBody | src/aisus/handlers/command_handler.py:33-145 | every command that passes the gate does something |
| Commands.HandleCommand | src/aisus/handlers/command_handler.py:33-145 | every command first asks the gate; a refused command does nothing and changes no flag; a command that runs came from an authorised chat or one without a password |
| AgentRunner.ShouldUseAgent | agent/runner.py:21-45 | a hard trigger in the stripped lowercased text always selects the agent; in strict mode only a trigger does; otherwise `THINKING_ENABLED` decides |
| AgentRunner.WhatIsNewUsesAgent | agent/runner.py:31-40 | `що нового` selects the agent even in strict mode |
| AgentRunner.ThinkUsesAgent | agent/runner.py:31-40 | a text starting with `/think` selects the agent whatever follows and whatever the flags |
| AgentRunner.NeedsReasoning | agent/runner.py:47-54 | reasoning is used iff the normalised text starts with `/think`, the raw text holds 🧠, or the normalised text holds `роздумай` or `step-by-step` |
| AgentRunner.StripThink | agent/runner.py:57-64 | a text not starting with `/think` (ignoring case) is only stripped; otherwise the first token goes and the result is shorter than the stripped text by at least six characters |
| AgentRunner.BareThink | agent/runner.py:60-62 | a bare `/think` leaves an empty question |
| AgentRunner.ThinkPrefixRemoved | agent/runner.py:60-62 | `/think` followed by whitespace and a question leaves exactly the question |
| AgentRunner.ToolContent | agent/runner.py:109-125 | the tool turn's content is at most 20000 characters: the search JSON or the page text when search is on, a `TOOL_ERROR: ` text for an unknown or disabled tool |
| AgentRunner.Keys | agent/runner.py:88-95 | one (domain, title) key per used source, in order |
| AgentRunner.Lines | agent/runner.py:99 | one `- {title or dom} ({dom})` line per key, in order |
| AgentRunner.CollectSourceLines | agent/runner.py:86-99 | the `seen`-set loop yields exactly one line per distinct key, in the order first seen |
| AgentRunner.AnswerShape | agent/runner.py:84-102 | without sources the answer is the stripped reply; with sources it is followed by the `Джерела` header and the lines of one to five distinct keys of those sources, the first source's key first |
| AgentRunner.ShownSources | agent/runner.py:100-101 | `uniq[:5]` holds one to five distinct keys of the input, the first one in front |
| AgentRunner.DedupeHead | agent/runner.py:96-99 | the first source is always kept, in front |
| AgentRunner.DuplicateCitedOnce | agent/runner.py:95-98 | the same source used twice is cited once |
| AgentLlm.GetEnv | agent/llm.py:8-10 | `os.getenv(key, default)`: a set variable wins, even an empty one, else the default |
| AgentLlm.ConfigFromEnv | agent/llm.py:8-10 | the chat model, reasoning model and effort default to `gpt-5-chat-latest`, `gpt-5` and `medium` when unset |
| AgentLlm.MaybeReasoningArgs | agent/llm.py:22-25 | no reasoning arguments iff the reasoning model is empty; otherwise the configured effort |
| AgentLlm.PickModel | agent/llm.py:27-30 | the reasoning model when reasoning is asked for and one is configured, the chat model otherwise |
| AgentLlm.MakeMessages | agent/llm.py:66-73 | the system turn when the prompt is non-empty, then the context unchanged, then the user turn when the text is non-empty |
| AgentLlm.MakeMessagesBare | agent/llm.py:66-73 | with no prompt and no user text the context is passed on as it is |
| AgentLlm.MakeMessagesRoles | agent/llm.py:66-73 | every message comes from the context or is the given system or user turn |
| AgentLlm.ChatOnceKwargs | agent/llm.py:75-85 | the model as picked, the messages and temperature 0.3; tools and `tool_choice="auto"` iff the tool list is non-empty; a reasoning effort iff reasoning is asked for and a reasoning model is set |
| AgentLlm.ReasoningConsistent | agent/llm.py:75-85 | a reasoning request carries the effort iff it goes to a configured reasoning model; a plain request uses the chat model without an effort |
| Mentions.Needle | app/message_logic.py:13 | the needle is `@` followed by the user name |
| Mentions.RemoveMention | media/router.py:17 | removing mentions never makes the text longer |
| Mentions.NoAtUnchanged | media/router.py:17 | a text without `@` holds no mention and comes back unchanged |
| Mentions.MentionInFrontRemoved | app/message_logic.py:44 | a leading `@bot` is removed and the rest, which holds no `@`, is kept as it is |
| MediaRouter.StripBotMention | media/router.py:12-18 | an empty text gives ""; without a bot name it is only stripped; the result is always stripped |
| MediaRouter.LeadingMentionRemoved | media/router.py:15-17 | `@bot words` gives `words` when the name ends in a word character |
| MediaRouter.MentionBeforeRequest | media/router.py:12-18 | `_strip_bot_mention("@mybot зроби щось", "mybot")` is `зроби щось` |
| MediaRouter.ContextOf | media/router.py:30-54 | the `if/elif` chain on the media type: a photo gives its description with the user text as hint; a text gives its text; an error escapes exactly for voice or audio without a path, or for a photo whose description fails outside any `try`; only video, voice and audio can fail with a reply |
| MediaRouter.AudioContext | media/router.py:40-50 | voice or audio without a path raises; a failed transcription gives the fixed failure reply; otherwise the context starts with the transcript heading |
| MediaRouter.HandleMention | media/router.py:20-60 | a failure just replies and returns `None`; a non-empty context is stored as a `[MEDIA]` tool message and then the budget is kept; the prompt is the user text or the default instruction, never empty |
| MediaRouter.DownloadedMediaRaisesOnlyInDescribe | media/router.py:62-105 | on whatever either downloader returns, the `paths[0]` read of the voice and audio branch never fails: an error escapes the handler exactly when the media is a photo and describing it fails |
| MediaRouter.BareMention | media/router.py:56-60 | a bare mention with no media stores nothing and gives the default instruction |
| Downloader.LastIndexOf | media/downloader.py:41 | `rfind`: `None` iff the character is absent, otherwise the last index holding it |
| Downloader.Basename | media/router.py:52 | `os.path.basename`: a suffix of the path that holds no `/`, the whole path when it has none |
| Downloader.SplitExt | media/downloader.py:41-65 | the extension is empty or a suffix of the path starting with one `.` and holding no other `.` or `/` |
| Downloader.SplitExtPlain | media/downloader.py:41 | `stem.ext` has the extension `.ext` |
| Downloader.DocExt | media/downloader.py:41 | a document's extension is never empty and starts with `.` |
| Downloader.DocExtDefault | media/downloader.py:41 | a document without a name, or with an empty one, is stored as `.bin` |
| Downloader.PtbDownload | media/downloader.py:10-47 | the kind is the first present one in the order photo, video, voice, audio, document, text; only text has no path and no transfer; otherwise one file goes to `MEDIA_TMP/{chat}_{message}{ext}`; a photo takes the largest size; the text is `text or caption or None` |
| Downloader.ClassifyByExtension | media/downloader.py:65-76 | for a plain file the lowercased extension decides the type, one table per type, anything else is a document, never text |
| Downloader.TelethonDownload | media/downloader.py:50-77 | text iff there is no media or no downloaded path; otherwise the one path, classified by the photo and video flags and the lowercased extension |
| Downloader.DownloadedHasOnePath | media/downloader.py:23-66 | every non-text result of either downloader has exactly one path |
| Video.FramesPerSecond | media/video.py:27 | the sampling rate lies between 0.1 and 10 frames per second; it is `1/every` inside that range and 0.1 above it |
| Video.CeilDiv | media/video.py:34 | `ceil(n / d)`: the least `q` with `q·d ≥ n` |
| Video.ThinFramesSpec | media/video.py:33-36 | a listing that fits is kept; a zero limit on a longer one raises; otherwise the result is non-empty, starts with the first frame, holds the frames at the multiples of the step in order and has at most `max_frames` entries |
| Video.RoundHalfEven | media/video.py:51 | `{dur:.0f}` lies within 0.5 of the duration |
| Video.Excerpt | media/video.py:64 | an empty transcript gives `—`; otherwise a non-empty prefix of at most 4000 characters, the whole transcript when it fits |
| Video.Summary | media/video.py:61-65 | the summary is the fixed heading, the frame description, the speech heading, the excerpt and a final newline |
| Video.AnalyzeVideo | media/video.py:44-72 | raises iff a non-zero duration is over the limit, with the message `Video too long: …s > …s`, or a zero frame limit meets frames, or describing the thinned frames fails; otherwise the report holds the thinned frames, the transcript, their description and the summary |
| Video.DefaultDurationGuard | media/video.py:9-51 | under the defaults and with a describer that succeeds, 600 s passes; 660 s fails with `Video too long: 660s > 600s` |
| MessageLogic.HasMentionText | app/message_logic.py:22-25 | false for an empty text or name; otherwise true iff `@name` occurs in the text, ignoring case |
| MessageLogic.HasMentionPtb | app/message_logic.py:10-19 | true iff `@name` occurs in the text or caption, ignoring case, whatever the entities say |
| MessageLogic.GateEffects | app/message_logic.py:42-59 | an unauthorised chat without a mention gets nothing; the chat is authorised iff it is mentioned and the first word after the mention is the non-empty join password |
| MessageLogic.RunFor | app/message_logic.py:77 | the agent runs iff `_should_use_agent` says so, the plain completion otherwise |
| MessageLogic.UnauthorisedChat | app/message_logic.py:42-59 | an unauthorised chat never reaches memory, the budget or the model |
| MessageLogic.AuthorisedBranch | app/message_logic.py:61-77 | an authorised chat takes the prompt from the mention handler, or else the stripped text |
| MessageLogic.AuthedTurnFirst | app/message_logic.py:69-77 | a blank unmentioned message does nothing; a plain text turn is stored and the budget kept right before the model runs |
| MessageLogic.AuthedAnswerLast | app/message_logic.py:77-87 | after the model call an empty answer ends the flow; a non-empty one is replied, stored as the assistant turn and budgeted, and nothing follows |
| MessageLogic.OnlyRunAt | app/message_logic.py:77 | the model is called exactly once: the only run in `head + [run] + tail` is the one right after `head` |
| MessageLogic.PasswordAcceptedWhenGiven | app/message_logic.py:44-58 | `@bot pw` authorises the chat and confirms iff `pw` is the join password; otherwise the hint names the bot |
| Admin.HandleCommand | commands/admin.py:3-21 | a blank text raises `IndexError`; the reply is `Memory stats` iff the lowercased first word is `/mem` and `OK` iff it is `/health`; anything else is not handled |
| Admin.BlankIffNoToken | commands/admin.py:8 | `split()[0]` fails exactly on a blank text |
| Admin.FirstWordDecides | commands/admin.py:8 | only the first word counts, whatever follows it |
| Admin.StripKeepsFirstToken | commands/admin.py:8 | stripping first does not change the first word |
| MessageRouter.MentionOf | src/aisus/handlers/message_router.py:17 | the mention is `@` followed by the name, `@None` when the bot has no user name |
| MessageRouter.PrivateAlwaysProcessed | src/aisus/handlers/message_router.py:13-22 | a private chat is always processed |
| MessageRouter.MentionAnywhere | src/aisus/handlers/message_router.py:14-17 | `@bot` anywhere in the text or the caption makes the message processed |
| MessageRouter.GroupNeedsMentionOrReply | src/aisus/handlers/message_router.py:12-22 | a group message without `@` in text or caption is processed iff it replies to the bot's own message |
| MessageRouter.NoAtNoMention | src/aisus/handlers/message_router.py:17 | a text without `@` holds no mention |
| MessageRouter.MentionIsCaseSensitive | src/aisus/handlers/message_router.py:17 | `@MYBOT hi` in a group does not count as a mention of `mybot` |
| SearchCache.Newest | db/search_repository.py:14-16 | `ORDER BY id DESC LIMIT 1`: `None` iff no row matches; otherwise a matching row whose id is the largest among the matches |
| SearchCache.GetSearchCache | db/search_repository.py:10-28 | no row for the provider and normalised query means a miss; a hit is the parsed JSON of a matching row that has not expired |
| SearchCache.NextId | db/search_repository.py:34 | the auto-increment id is above every id in the table |
| SearchCache.PutSearchCache | db/search_repository.py:30-38 | one row is appended and the existing rows stay |
| SearchCache.GetAfterPut | db/search_repository.py:10-38 | what was stored is found again under any query with the same normalised key until the TTL runs out, and is missed after |
| SearchCache.NewestIsLast | db/search_repository.py:16-34 | a matching row inserted with the next id is the newest |
| SearchCache.QueryKeyNormalises | db/search_repository.py:11-31 | `"  Погода Київ "` and `"погода київ"` share a cache key |
| SearchCache.GetPageCache | db/search_repository.py:40-54 | no row for the URL means a miss; a hit is the text of a matching row that has not expired |
| SearchCache.PutPageCache | db/search_repository.py:56-63 | one row is appended and the existing rows stay |
| SearchCache.PageAfterPut | db/search_repository.py:40-63 | a stored page is served until its TTL runs out and missed after |
| WebSearch.Limit | agent/tools/web_search.py:17 | the limit is `max_results`, or the configured count when it is missing or zero, capped at 10 |
| WebSearch.LimitBound | agent/tools/web_search.py:17-20 | a non-negative limit keeps at most ten results |
| WebSearch.RecencyBucket | agent/tools/web_search.py:25-37 | no recency parameter for a missing or zero value; a day for at most 1 (negative values included), a week for 2 to 7, a month above |
| WebSearch.ChooseProvider | agent/tools/web_search.py:22-55 | Bing iff it is configured and its key is set and non-empty; Serper and Tavily likewise only when configured; any other provider name means DuckDuckGo |
| WebSearch.RequestFor | agent/tools/web_search.py:24-48 | the request asks for the limit; Tavily passes the days iff a recency bucket applies |
| WebSearch.ItemsOf | agent/tools/web_search.py:31-54 | one item per hit, in order, with the provider's field names and `""` for a missing field |
| WebSearch.CollectItems | agent/tools/web_search.py:31-54 | the loop builds the items of the first `limit` hits |
| WebSearch.SearchWeb | agent/tools/web_search.py:16-73 | a non-empty cache hit is returned cut to the limit, with no request and no write; otherwise the chosen provider is asked, the first `limit` items are returned and they are cached under the query |
| WebSearch.ResultsWithinLimit | agent/tools/web_search.py:17-62 | a non-negative limit caps what a search returns, from the cache or from the provider |
| WebSearch.RepeatedSearchHitsCache | agent/tools/web_search.py:18-72 | a search that found something is served from the cache by the next search for the same normalised query within the TTL |
| ConfigParser.FormatMessage | src/aisus/config_parser.py:9-10 | a missing message gives `""`; otherwise each space-bar-space separator becomes one newline, two characters shorter per occurrence |
| ConfigParser.ReplaceLength | src/aisus/config_parser.py:10 | rewriting each space-bar-space separator to a newline shortens the text by two per occurrence |
| ConfigParser.FormatWithoutBars | src/aisus/config_parser.py:10 | a message without a bar character is kept verbatim |
| ConfigParser.GetEnv | src/aisus/config_parser.py:25-31 | `os.getenv(key)` is set iff the key is present, and then holds its value |
| ConfigParser.ParseInt | src/aisus/config_parser.py:43-44 | `int()` succeeds only on a text that is not blank once stripped |
| ConfigParser.DigitsOfNat | src/aisus/config_parser.py:43-44 | the decimal digits of a number read back as that number |
| ConfigParser.ParseIntRoundTrip | src/aisus/config_parser.py:43-44 | `int(str(n)) == n` for every integer, negative ones included |
| ConfigParser.ParseNonNegative | src/aisus/config_parser.py:43-44 | a decimal digit string reads back as its number |
| ConfigParser.ParseNegative | src/aisus/config_parser.py:43-44 | a minus sign before a digit string reads back as the negated number |
| ConfigParser.ReadConfig | src/aisus/config_parser.py:14-44 | reading fails iff one of the two limits does not parse; otherwise every field is its variable: the six messages formatted (three with their defaults), the optional settings as set, the API mode defaulting to `responses`, the limits parsed, and each search flag on when unset or when its stripped, lowercased value is 1, true, yes or on |
| ConfigParser.SystemMessages | src/aisus/config_parser.py:46-54 | exactly the six message keys, each holding its configured text |
| ConfigParser.OpenAiSettings | src/aisus/config_parser.py:56-67 | exactly the nine keys, holding the key, the three models, the voice, the mode, the effort and both search flags as configured |
| ConfigParser.ApiSettings | src/aisus/config_parser.py:69-72 | only `bot_token` |
| ConfigParser.FilePathsAndLimits | src/aisus/config_parser.py:74-81 | exactly the five keys: the three folders (`None` when unset) and the two parsed limits |
| ConfigParser.DefaultLimitsParse | src/aisus/config_parser.py:43-44 | the defaults parse to 3000 and 124000 |
| ConfigParser.FlagDefaults | src/aisus/config_parser.py:32-35 | `true` turns a flag on; `0` and `false` turn it off |
| ConfigParser.FlagsFromEnv | src/aisus/config_parser.py:32-35 | once read, a search flag set to " Yes " is on and a web-search flag set to "Off" is off |
| ConfigParser.FlagSpellings | src/aisus/config_parser.py:32-35 | blanks around a flag value and its case do not matter |
| ConfigParser.DefaultsWhenMissing | tests/test_config_parser.py:37-46 | with an empty environment reading succeeds; the image affixes are their formatted defaults; the API mode is `responses`; the image folder is `None`; the limits are 3000 and 124000; both search flags are on |
| ConfigParser.ReadsFromEnv | tests/test_config_parser.py:10-34 | a set `LIMITS_MAX_TOKENS` is parsed into `max_tokens`, a password without a bar character is kept verbatim, and the API key is read as set |
| DbConnection.Env | db/connection.py:14-18 | `_env` fails iff the variable is unset and there is no default, with `Environment variable NAME is required`; a set variable wins over the default |
| DbConnection.GetDbConfig | db/connection.py:20-30 | fails iff the port or the pool size does not parse; otherwise charset `utf8mb4` and autocommit on, with the host and password taken from the environment or their defaults |
| DbConnection.DbConfigDefaults | db/connection.py:20-30 | with nothing set: `127.0.0.1:3306`, user `aisus`, empty password, database `aisus`, `utf8mb4`, autocommit, pool size 10 |
| DbConnection.Database.constructor | db/connection.py:12 | there is no pool at first |
| DbConnection.Database.InitDb | db/connection.py:32-39 | an existing pool is returned unchanged; otherwise the new pool is stored and returned |
| DbConnection.Database.CloseDb | db/connection.py:41-46 | afterwards there is no pool |
| DbConnection.Database.Acquire | db/connection.py:48-57 | a missing pool is created first; the pool used is then the stored one |
| DbConnection.InitTwice | db/connection.py:32-39 | calling `init_db` twice gives the same pool |
| DbConnection.Lines | db/connection.py:81 | `splitlines` gives at least one piece, and no piece holds a line break |
| DbConnection.Statements | db/connection.py:89-95 | no more statements than parts |
| DbConnection.RunSqlScript | db/connection.py:76-106 | the statements are the stripped non-empty `;`-pieces of the non-blank, non-comment lines; they run in order; the script commits iff none fails; after a failure exactly the statements before the failing one have run |
| DbConnection.StrippedPart | db/connection.py:93 | a stripped, non-empty piece without `;` is a well-formed statement |
| DbConnection.StatementsWellFormed | db/connection.py:91-95 | every statement is non-empty, has no whitespace at its ends and holds no `;` |
| DbConnection.ScriptStatementsWellFormed | db/connection.py:80-95 | a script's statements are all well formed |
| DbConnection.KeptLines | db/connection.py:80-86 | the kept lines are exactly the script's non-blank, non-comment lines |
| DbConnection.CommentsOnly | db/connection.py:80-95 | a script of only comments and blank lines executes nothing |
| DbConnection.StatementsOrder | db/connection.py:91-95 | the statements of two stretches of parts are those of each, in order |
| Migrate.NameLeTotalAt | db/migrate.py:28 | any two file names are ordered one way or the other |
| Migrate.NameLeTransAt | db/migrate.py:28 | the name order is transitive |
| Migrate.NameOrder | db/migrate.py:28 | the name order is a total preorder |
| Migrate.SortedNames | db/migrate.py:28 | `sorted` gives the same names, sorted |
| Migrate.MigrationsAppend | db/migrate.py:28-33 | the log only grows; every added entry ran cleanly, is one of the files and was not applied before |
| Migrate.MigrationsDistinct | db/migrate.py:30-33 | a log without repeats stays without repeats |
| Migrate.MigrationsOutcome | db/migrate.py:28-33 | a failure names a file whose script failed and which is not logged; a run without failure logs every file |
| Migrate.MigrationsIdempotent | db/migrate.py:30-31 | when every file is logged already nothing runs |
| Migrate.MigrationsInOrder | db/migrate.py:28-33 | over sorted files the added entries come out sorted |
| Migrate.MigrationLog.constructor | db/migrate.py:8-16 | the log starts empty |
| Migrate.MigrationLog.IsApplied | db/migrate.py:18-20 | true iff the file name is in the log |
| Migrate.MigrationLog.MarkApplied | db/migrate.py:22-23 | the file name is appended to the log |
| Migrate.MigrationLog.ApplyMigrations | db/migrate.py:25-34 | the new log and the failure are those of `Migrations` over the sorted files; each file's script runs through `run_sql_script_file` |
| Migrate.ApplyKeepsLogUnique | db/migrate.py:25-34 | the log stays without repeats; this run's entries are sorted, ran cleanly and are among the files |
| Migrate.SecondRunIsNoOp | db/migrate.py:25-34 | after a run without failure a second run applies nothing |
| Hooks.GivenNames | db/hooks.py:13-33 | `filter(None, [first, last])` keeps only the non-empty names |
| Hooks.DisplayName | db/hooks.py:13-33 | the display name is never empty |
| Hooks.DisplayNameFallbacks | db/hooks.py:13-33 | both names with a space between, else the one given, else the user name, else the id as text |
| Hooks.TrackPtb | db/hooks.py:7-14 | two upserts, the chat with its title first, then the participant with its id, user name and display name |
| Hooks.TelethonTitle | db/hooks.py:25 | the chat's title, else its first name |
| Hooks.TrackTelethon | db/hooks.py:18-34 | the chat upsert first, then the participant; a sender without attributes is recorded with the chat id as id and as display name |
| Hooks.SameDisplayNameOnBothPlatforms | db/hooks.py:13-33 | the same user gets the same participant row from either hook |

## Left out

- The tiktoken tokenizer: an encoder is a given function from text to token ids. The repository's tests force the ⌈len/4⌉ fallback, which is modelled exactly.
- Unicode case mapping and character classes: `lower()` is modelled for ASCII and the basic Cyrillic block (with Ґ/ґ). `\w` is modelled as ASCII letters, digits, `_` and the basic Cyrillic block. The whitespace that `strip()` and `split()` remove is the six ASCII whitespace characters; the other Unicode spaces are not.
- Floating point: importance, `COMPRESS_PORTION`, scores and durations are Dafny `real`s. The ranking and clamping are stated over exact reals, not IEEE doubles.
- The language model, speech synthesis, transcription, image description, ffmpeg and ffprobe: their results are parameters. Image description is a `Result`, so that its exceptions (an unreadable file, a failed vision request) are part of the model; which exception it raises is not. So are the HTTP calls of the web-search providers and their HTML and JSON parsing. JSON encoding and decoding in the search cache are given functions.
- `asyncio`, the connection pool and the event loop: every `await` is one sequential step. No interleaving of two chats is modelled.
- Clocks (`time.time`, `NOW()`, `utcnow`) and the environment are parameters.
- sha256 in the search cache: the key is the normalised query itself, an injective stand-in for the hash.
- The agent's multi-step tool-calling loop in `run_agent` (agent/runner.py:66-129): the trigger, the `/think` handling, the 20000-character tool-result cut and the source lines are modelled. The sequence of model calls is not.
- `run_simple` (agent/runner.py:131-135), `tool_spec` and `_get_client` (agent/llm.py): fixed data and client construction.
- `urlparse(...).netloc` of a source URL is a parameter (the domain of each source).
- SQL semantics: the memory store, the search cache, the glossary and the participant tables are in-memory rows. `ORDER BY` ties between rows with equal keys are broken by the model's stable sort, where the database leaves them unspecified. `NULL` last-used times are the epoch, as the query says.
- Migrate.SortedNames: file names are ordered by code points as strings, which is what `sorted` does on the POSIX paths of one directory. Path-component comparison is not modelled.
- ConfigParser.ParseInt: `int()` accepts an optional sign and ASCII digits, with surrounding whitespace. Underscore separators and non-ASCII digits are not accepted by the model.
- ConfigParser.DefaultsWhenMissing: states the default image affixes as the formatted defaults, via `FormatMessage`, not as the literal text after formatting.
- Summarizer.SummarizeBlock: a message role is either absent, which gives "user" as `m.get("role", "user")` does, or a string. A role key that is present with the value `None`, which Python would print as "None", is not modelled.
- Video.ThinFrames: a negative `VIDEO_MAX_FRAMES` is outside the model (the limit is a `nat`). A zero limit is modelled as the division error it raises.
- MediaRouter: the `MEDIA_TMP` directory is joined with "/", so a configured value with a trailing slash gives a double slash in the model, which `pathlib` would collapse.
- Stats: the text layout of `stats_command`'s reply is left out. The h/m/s split and the counters it prints are modelled.
- `show_files_command` and `clear_files_command` (src/aisus/handlers/command_handler.py:108-121, 137-145): directory listing and file deletion only. Their gate is modelled.
- `gc_suggestions` (knowledge/glossary.py:68-73): a database cleanup with no rule of its own.
- `handle_message_telethon` (knowledge/threads.py:78-100): the same reply and root logic as `handle_message_ptb` on the other platform, with Telethon's field names. Only the bot-API version is modelled.
- `get_conn_cursor`, `execute`, `fetchone` and `fetchall` (db/connection.py:49-74): pass-through wrappers around the pool.
- DbConnection.RunSqlScript: with autocommit on, the statements that ran before a failing one stay applied. The model records which ran, not what they did to the database.
- The Telethon participant hook's registration with the client library (db/hooks.py) is left out. Its rules are modelled.
- `_ffprobe_duration_sec`, `_extract_audio_mp3` and `transcribe_audio_mp3` (media/video.py): subprocess calls. Their outcomes are inputs of `AnalyzeVideo`.

## Findings

| source | as written | input that shows it | evidently intended | confidence | as-written member | corrected member |
|---|---|---|---|---|---|---|
| chat_history_manager.py:27-34 and src/store/memory_store.py:31-39 | `prune_history` repeats "pop the oldest non-system entry" while the total length exceeds the limit; when no non-system entry is left the loop body changes nothing and the loop never ends | a history holding only the system message "System message" (14 characters) with `max_length` 5 | pruning stops once no non-system entry is left, keeping the system entries even above the limit | not executed | History.SystemOnlyHistoryNeverPrunes (and History.PruneAsWrittenDiverges) | History.PruneSpec, computed by History.PruneLoop and used by both ChatHistoryManager.PruneHistory methods |
