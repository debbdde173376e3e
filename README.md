# memora core, modelled in Dafny

memora keeps a coding assistant's working memory on disk. It has three layers:

- **Session file.** `sessions/active_session.json` holds the current conversation and a cumulative summary. It has a backup copy, a temporary file used for atomic replacement, and an archive directory that receives a snapshot at every rotation.
- **Core memory file.** `core/master_memory.md`.
- **Long-term log.** `longterm/memory.jsonl`, one JSON record per line.

Before each request it composes a prompt from these layers:

- the core memory;
- the session summary;
- the recent conversation;
- the long-term records that share words with the request, ranked by how many query words they contain.

Around this core sit a few helpers:

- a CLI turn (`run` / `ask`) that saves the request, composes the prompt, runs an external command and saves the reply;
- the Supabase sync helpers, which push and pull sessions and the long-term log;
- local settings resolution and secret masking;
- the tmux session-name normaliser and command decisions;
- the skill bootstrap of `memora init`.

The project models this core file by file:

| file | module | form |
|---|---|---|
| `wrappers.dfy` | `Wrappers`, `Json`, `Process` | `Option`, `Result`, an abstract JSON value, a finished process's exit code and streams |
| `text.dfy` | `Text` | Python's `strip`, `split`, `splitlines`, `join`, slicing with negative bounds, `in` on strings, ASCII `lower`/`upper`/`title`, with their algebra |
| `session_model.dfy` | `Sessions` | the session document, `_default_session`, `_compress_messages` (a method with its append loop, proved against a function), the summary merge, `summarize_and_prune` and the append-then-rotate step as values |
| `session_store.dfy` | `SessionStore` | a class `Workspace` whose fields are the session files and the core memory file; `load_session`, `save_session`, `summarize_and_prune`, `add_message`, `init_session` and `_atomic_write_json` are methods that change them, each proved equal to a step function on the old state |
| `session_store_facts.dfy` | `SessionStoreFacts` | what the store promises, as lemmas on those step functions |
| `retrieval.dfy`, `retrieval_example.dfy` | `Retrieval`, `RetrievalExample` | `_search_longterm_jsonl` (scan loop, stable descending sort, cut at `limit`) and `search_longterm`, with a worked three-record example |
| `composer.dfy` | `Composer` | `load_core_memory`, `format_conversation`, `build_memory_block` and `build_prompt` |
| `cli.dfy` | `Cli` | the message/prompt/reply sequence of `cmd_run` / `cmd_ask` and the counts of `cmd_status` |
| `sync.dfy` | `Sync` | `_read_env`, `load_config`, `_load_longterm_rows`, the push payload, the restore merge of `pull_session`, the file `pull_longterm` writes |
| `settings.dfy` | `Settings` | `load_settings`, `resolve_value`, `resolve_setting`, `suggested_user_name`, `mask_secret` |
| `tmux.dfy` | `Tmux` | `session_to_tmux_name`, `tmux_attach_command`, the decisions of `tmux_new_session` and `tmux_list_sessions` |
| `bootstrap.dfy` | `Bootstrap` | `default_skills_root`, the generated skill files, and `ensure_default_skills` as a class over a directory tree |

**One model for both copies.** The repository holds two near-identical copies of the session manager, the memory manager and the sync helpers: `src/memora/*` and `engine/*`. They differ only in how paths are found, and in one more respect:

- before loading or saving, `src/memora` lays the workspace out, which seeds `core/master_memory.md` with a default text when it is missing;
- `engine` only makes the session directories.

The model is one machine with a `Copy` constant (`Src` or `Engine`) that selects this layout step. Everything else is shared.

**Inputs from outside the model.** Outside effects are inputs to the model:

- the clock is an `Instant` with the three renderings the code formats;
- JSON decoding and encoding are function parameters (`decode`, `dumps`), as are Python's `str()` of a JSON value (`render`), SHA-256 (`hash`) and `expanduser().resolve()` (`resolve`);
- the external LLM command, tmux and the Supabase server are functions from the request to what they answer;
- operating-system failures in the skill bootstrap are a predicate `fails` on paths.

The session file's content is either a decodable session or garbled text. This is the one distinction `load_session` acts on.

**Where the code was followed over the documentation.** In these places the model follows the code rather than the project's description of it:

- The rotation archive holds the session after pruning, not before (src/memora/session_manager.py:98-101).
- A garbled backup makes `load_session` raise instead of falling back to a default session (src/memora/session_manager.py:49).
- A rotation strips the old summary before appending, so the summary is not strictly append-only (src/memora/session_manager.py:91-94).
- From an empty session, 25 appends leave 14 messages, not 10. Past 20 the length cycles through 10..20 (`Sessions.LengthAfterAppends`).
- A record's score counts how many query tokens it contains, not how often they occur (src/memora/memory_manager.py:53).
- A session key can be absent, JSON null, or hold a value, and the code treats the three differently. `setdefault` fills only an absent key (src/memora/session_manager.py:111-112). A null conversation makes `add_message` raise after the load has written, and makes `cmd_status` raise. A null summary survives an append without rotation and makes `cmd_status` raise. A null id names the archive "None". A pulled row's null column restores as null.

## Model

| member | source | states |
|---|---|---|
| Sessions.DefaultSessionFacts | src/memora/session_manager.py:26-32 | The default session has an empty conversation and summary and the clock's timestamp. Its id is the given one, or `<UTC date>-default` when that is absent or empty. The engine copy has the same code at engine/session_manager.py:35-41. |
| Sessions.CompressMessages | src/memora/session_manager.py:71-79 | The append loop returns one compressed line per removed message, in order, joined by "\n". |
| Sessions.CompressContentFacts | src/memora/session_manager.py:75-77 | The content part is the stripped content with newlines turned into spaces, character for character up to 220, with no newline. It is 223 long and ends in "..." exactly when the stripped content exceeded 220. |
| Sessions.CompressLineFacts | src/memora/session_manager.py:74-78 | Each line is "- role: " (role "unknown" when missing) followed by the compressed content, and holds no newline when the role holds none. |
| Sessions.CompressOneLinePerMessage | src/memora/session_manager.py:71-79 | For a non-empty list of removed messages (a rotation always removes at least eleven) none of whose roles contains "\n", the compressed block splits back on "\n" into exactly one line per removed message. (Content never contributes a line break: the compression replaces them.) |
| Sessions.MergedSummaryFacts | src/memora/session_manager.py:91-96 | The new summary ends with "[Auto summary @ ts]\n" and the block. A non-blank old summary comes first, stripped, followed by "\n\n". A blank one leaves only the block. |
| Sessions.PruneBelowThreshold | src/memora/session_manager.py:83-85 | At most 20 messages: the session is returned unchanged. |
| Sessions.PruneSplitsConversation | src/memora/session_manager.py:87-98 | Past 20 messages, the conversation becomes exactly its last 10, and the removed prefix plus the kept suffix is the old conversation. The removed messages end the new summary. Id, timestamp and other keys are kept. |
| Sessions.PruneLength | src/memora/session_manager.py:84-98 | Conversation length after rotation: 10 past the threshold, unchanged otherwise. |
| Sessions.AppendBounded | src/memora/session_manager.py:111-115 | Whatever was loaded, after one append and the rotation check the conversation has 1..20 messages and ends with the new one. |
| Sessions.AppendKeepsSuffix | src/memora/session_manager.py:111-115 | What remains is a suffix of the loaded conversation plus the new message: all of it below 20 loaded messages, exactly 10 from 20 on. |
| Sessions.AppendFollowsLast | src/memora/session_manager.py:114-115 | The previous last message stays directly before the new one. |
| Sessions.LengthAfterAppends | src/memora/session_manager.py:105-117 | From an empty conversation, n appends leave n messages up to 20, then 10 + (n-21) mod 11. The length never exceeds 20. |
| Sessions.TwentyFiveAppends | src/memora/session_manager.py:105-117 | Twenty-five appends to an empty session leave 14 messages. |
| SessionStore.Workspace.AtomicWriteJson | src/memora/session_manager.py:20-23 | Writes the temporary file, then renames it over the target. The new state is the old one with the target replaced and no temporary left. |
| SessionStore.Workspace.EnsureLayout | src/memora/workspace.py:54-61 | The src copy seeds a missing core memory file with the default text. The engine copy changes nothing (engine/session_manager.py:24-26). |
| SessionStore.Workspace.LoadSession | src/memora/session_manager.py:35-55 | The returned session and the new files are those of the load step on the old files, in all three branches and the raising one. |
| SessionStore.Workspace.SaveSession | src/memora/session_manager.py:58-68 | Stamps the session, copies the previous active file verbatim to the backup when there was one, then commits through the temporary file. |
| SessionStore.Workspace.SummarizeAndPrune | src/memora/session_manager.py:82-102 | Returns the pruned session. Past the threshold it writes it to the archive named after the id and the compact clock. |
| SessionStore.Workspace.AddMessage | src/memora/session_manager.py:105-117 | Checks the normalised role before anything else, then loads, appends, rotates and saves. Files and result follow the add step. |
| SessionStore.Workspace.InitSession | src/memora/session_manager.py:120-127 | Returns the loaded session when an active file exists and `overwrite` is off. Otherwise it saves and returns a fresh default session. |
| SessionStoreFacts.LoadCreatesDefault | src/memora/session_manager.py:40-43 | A missing active file, or a garbled one with no backup, gives the default session, written as the new active file. Nothing else changes. The garbled-file branch is lines 53-55. |
| SessionStoreFacts.LoadRecoversBackup | src/memora/session_manager.py:45-51 | A garbled active file with a readable backup returns the backup and rewrites the active file from it. |
| SessionStoreFacts.LoadRaisesOnCorruptBackup | src/memora/session_manager.py:48-49 | A garbled backup is not recovered from: the load raises and writes nothing. |
| SessionStoreFacts.LoadOutcome | src/memora/session_manager.py:35-55 | For every file state, a load raises iff both files are garbled. Otherwise the returned session is what the active file then holds, a readable active file is not rewritten, and nothing but the active file changes. |
| SessionStoreFacts.LoadIdempotent | src/memora/session_manager.py:45-46 | After a successful load, loading again returns the same session and writes nothing. |
| SessionStoreFacts.SaveOutcome | src/memora/session_manager.py:58-68 | After a save, the active file holds the stamped session and the backup holds the previous active file verbatim. No temporary is left, nothing else changes, and the next load returns the saved session. |
| SessionStoreFacts.BackupRecoversPrevious | src/memora/session_manager.py:65-66 | If the active file is damaged after a save, the next load returns the session that was active before it. |
| SessionStoreFacts.SaveCrashSafe | src/memora/session_manager.py:58-68 | The rename of `_atomic_write_json` (lines 20-23) is the only commit point: every state before it leaves the active file as it was, whatever it holds. When the active file decodes or is missing, a load after a crash at any step of a save returns the old session (the default one without a file) or the new one. |
| SessionStoreFacts.SaveCanDestroyBackup | src/memora/session_manager.py:65-66 | As written: `init_session(overwrite=True)` (lines 120-127), saving over an active file that does not decode copies it over a good backup. A crash after that copy makes the next load raise, where it returned the backup, or created the default session, before the save. |
| SessionStoreFacts.SaveStepCorrected | src/memora/session_manager.py:58-68 | The corrected save leaves the stamped session active and never replaces the backup with a file that does not decode. |
| SessionStoreFacts.SaveCorrectedCrashSafe | src/memora/session_manager.py:58-68 | For every file state, a load after a crash anywhere in the corrected save returns what a load before it returned, or the new session. It is the source's save whenever the active file decodes or is missing. |
| SessionStoreFacts.PruneArchivesPruned | src/memora/session_manager.py:98-101 | Below the threshold nothing is written. Past it, the archive, named after the id ("session" when absent, "None" when null) and the compact clock, holds the already pruned session, and no other file changes. |
| SessionStoreFacts.AddMessageRejectsRole | src/memora/session_manager.py:106-108 | A role outside user/assistant/system after strip and lower raises before any file is touched. |
| SessionStoreFacts.AddMessageOutcome | src/memora/session_manager.py:105-117 | A successful add stores at most 20 messages ending with the new one, stamped, with the loaded file as backup. With a valid role it fails iff the backup is corrupt (nothing written) or the loaded conversation is null (the append raises after the load's own writes). |
| SessionStoreFacts.AddMessageKeepsSuffix | src/memora/session_manager.py:111-116 | The stored conversation is a suffix of the loaded one plus the message, and exactly its last 10 from 20 loaded messages on. |
| SessionStoreFacts.AddMessageStored | src/memora/session_manager.py:110-117 | A successful add loaded a session whose conversation is not null, and stores it with the message appended, rotated and stamped. |
| SessionStoreFacts.AppendedSession | src/memora/session_manager.py:111-116 | The stored session has 1..20 messages ending with the new one, all of the loaded ones plus it below 20, the add's timestamp and the loaded id. |
| SessionStoreFacts.InitKeepsExisting | src/memora/session_manager.py:122-123 | Without `overwrite`, an existing readable session is returned and nothing is written. |
| SessionStoreFacts.InitWritesFresh | src/memora/session_manager.py:125-127 | With `overwrite` or no active file, a fresh empty session with the given id is saved and returned, the old active file becoming the backup. |
| Retrieval.TokensFacts | src/memora/memory_manager.py:36-38 | Tokens are whitespace-free words of the lower-cased query with at least two characters. There are none exactly when every word has one character. The engine copy has the same code at engine/memory_manager.py:38-40. |
| Retrieval.ScoreCounts | src/memora/memory_manager.py:53 | The score is the number of token entries (duplicates included) contained in the text, at most the number of tokens, and positive iff some token occurs. |
| Retrieval.ScoredLinesPositive | src/memora/memory_manager.py:51-55 | Every scored record has a positive score, the score of its own text. |
| Retrieval.ScoredLinesIsFilter | src/memora/memory_manager.py:41-55 | The scan succeeds iff no line is JSON other than an object. Then `scored` equals the front-to-back filter of the lines: one record per object line whose text holds a token, with its score, and no other. |
| Retrieval.ScoredLinesComplete | src/memora/memory_manager.py:51-55 | An object line whose text holds a query token is in `scored`, with its score, whenever the scan succeeds. |
| Retrieval.ErrorStopsScan | src/memora/memory_manager.py:46-51 | A line that parses but is not an object ends the scan with an error: nothing after it is looked at. |
| Retrieval.SkippedLineIsInvisible | src/memora/memory_manager.py:41-49 | A blank or unparseable line anywhere in the log changes nothing. |
| Retrieval.SortDescFacts | src/memora/memory_manager.py:57 | The sort gives non-increasing scores and a permutation. It is stable: records of each score keep file order. |
| Retrieval.TopRanked | src/memora/memory_manager.py:57-58 | Exactly as many records as `[:limit]` leaves are kept (at most `limit` for a non-negative one), a prefix of the ranking, none scoring below a record cut off. A limit covering the list keeps all of it. |
| Retrieval.ScanLines | src/memora/memory_manager.py:41-55 | The scan loop computes the scored list, or the error, of the lines. |
| Retrieval.TakeTexts | src/memora/memory_manager.py:58 | The texts of the first `limit` ranked records, with Python's slice bound. |
| Retrieval.SearchLongtermJsonl | src/memora/memory_manager.py:31-58 | The search returns [] for a missing log or no tokens, else the ranked texts. |
| Retrieval.SearchReturnsMatches | src/memora/memory_manager.py:31-58 | No log or no tokens gives []. Otherwise the search fails iff some line is JSON but not an object. It returns as many texts as `[:limit]` leaves of the matching records, each holding a query token, and every match's text when the limit covers them. |
| Retrieval.SearchLongtermLines | src/memora/memory_manager.py:61-66 | No matches gives the placeholder. Otherwise, when no matched text contains "\n", the text splits into one "- text" bullet per match, in rank order. A text with line breaks spans several lines. |
| RetrievalExample.CatDogExample | src/memora/memory_manager.py:51-58 | Records "cat sat", "dog ran", "cat and dog" with query "cat dog" and limit 2 give "cat and dog" then "cat sat". |
| Composer.CoreTextFacts | src/memora/memory_manager.py:12-16 | The core text is empty iff the file is missing or blank. Otherwise it is the stripped file. |
| Composer.FormatConversation | src/memora/memory_manager.py:19-28 | The append loop returns "(empty)" or the "[ROLE] content" lines joined by "\n". |
| Composer.FormattedConversationLines | src/memora/memory_manager.py:19-28 | When no role and no content contains "\n", one "[ROLE] content" line per message in order (role upper-cased, "UNKNOWN" when missing, content stripped). An empty conversation gives "(empty)". A multi-line message, such as an assistant reply stored from a command's stdout, spans several lines. |
| Composer.LatestMessageLast | src/memora/memory_manager.py:19-28 | The conversation section ends with the latest message's line. |
| Composer.MemoryBlockLayout | src/memora/memory_manager.py:69-81 | Four sections in fixed order, each "### NAME\n" + body, separated by "\n\n". An empty core or summary reads "(empty)". The engine copy has the same code at engine/memory_manager.py:71-83. |
| Composer.BuildMemoryBlock | src/memora/memory_manager.py:69-72 | Reads the core file, then loads the session (which may write), then searches the log. Files and result follow the block step. |
| Composer.PromptLayout | src/memora/cli.py:27-28 | The prompt starts with the memory block and ends with "### USER REQUEST\n" and the input verbatim, with "\n\n" right after the block and the length of exactly those parts. |
| Composer.BuildPrompt | src/memora/cli.py:27-28 | `build_prompt` against the files follows the prompt step. |
| Composer.SeededCoreShowsLater | src/memora/memory_manager.py:69-72 | The core file is read before the load lays the workspace out. With no core file the first block opens with "### CORE MEMORY\n(empty)\n\n". The next block from the files it left opens with the stripped default core memory (non-empty, starting "#") in the src copy, and with "(empty)" again in the engine copy. When the first succeeds, so does the next. |
| Composer.BlockOpensWithCore | src/memora/memory_manager.py:74-81 | The block starts with the core section, "(empty)" for an empty core, and a blank line. |
| Composer.BlockStepOpensWithCore | src/memora/memory_manager.py:69-81 | A block composed against the files opens with the section of the core text it was given. |
| Cli.ReplyChoice | src/memora/cli.py:104-105 | The reply is the stripped stdout if non-empty, else the stripped stderr if non-empty, else "(empty response)". It is never empty. |
| Cli.AskCommandPrecedence | src/memora/cli.py:112 | A non-empty `--cmd` wins, then `MEMORA_LLM_CMD`, then "cat". |
| Cli.Turn | src/memora/cli.py:95-107 | One run/ask turn: save the request, compose, then print (dry run) or run and save the reply. The result and files follow the turn step. `cmd_ask` at 110-125 is the same sequence. |
| Cli.RequestSaved | src/memora/cli.py:96 | After the first save, the request is the last message of the active session. |
| Cli.PromptOnReadable | src/memora/cli.py:27-28 | Composing over a readable active file writes nothing, fails iff the search does, and shows that file's session. |
| Cli.TurnPromptShowsRequest | src/memora/cli.py:96-97 | The prompt is composed after the request is saved, so the request appears as the last [USER] line and verbatim under USER REQUEST. |
| Cli.PromptShowsRequest | src/memora/cli.py:27-28 | Composing over a readable active file whose conversation ends with the request writes nothing, fails iff the search does, and shows the request as the last [USER] line and verbatim at the end. |
| Cli.RequestShownTwice | src/memora/cli.py:27-28 | A prompt over a conversation ending with the request shows it in both places. |
| Cli.DryRunSavesOnlyRequest | src/memora/cli.py:99-101 | A dry run saves the request only: no command, no assistant message, the prompt printed, exit code 0. |
| Cli.FullTurnAfterRequest | src/memora/cli.py:102-107 | After the request is saved, a full turn fails iff the search does. Otherwise the exit code is the command's, the printed reply is the chosen one, and the conversation ends with request then reply. |
| Cli.TurnStoresExchange | src/memora/cli.py:95-107 | A full turn fails only at the first save or the search. On success the stored conversation ends with the request followed by the reply, and the exit code is the command's. |
| Cli.ReplyFollowsRequest | src/memora/cli.py:104-105 | Saving the reply onto a session ending with the request keeps the two adjacent at its end. |
| Cli.SaveReplyOnReadable | src/memora/cli.py:105 | On a readable active file with a conversation list, saving the reply is one append, rotation and save. |
| Cli.StatusAfterAdd | src/memora/cli.py:217-228 | After a successful add, status reads without writing. It raises iff the loaded summary was null and no rotation replaced it (`setdefault` keeps a null). Otherwise it reports 1..20 turns and the timestamp that add stamped. |
| Sync.ReadEnvFacts | src/memora/supabase_sync.py:27-31 | A set, non-blank variable reads as its stripped value, non-empty and unpadded. Otherwise the default. The engine copy has the same code at engine/supabase_sync.py:30-34. |
| Sync.RStripSlash | src/memora/supabase_sync.py:49 | `rstrip("/")`: a prefix with no trailing "/", and only "/" removed. |
| Sync.LoadConfig | src/memora/supabase_sync.py:34-49 | The loop with its `missing` list computes the configuration or the error. |
| Sync.ConfigOutcome | src/memora/supabase_sync.py:34-49 | Raises iff URL or key is unset or blank, naming them in the order URL then key. The schema defaults to "public". The URL loses its trailing "/". The server id is the argument, else the variable, else the host name. |
| Sync.RowOfFacts | src/memora/supabase_sync.py:152-171 | A line gives no row when blank, unparseable or with blank text. A non-object raises. Otherwise it gives a row with stripped non-empty text, metadata wrapped as {"value": m} unless an object, and the hash of the text. |
| Sync.RowsOfFacts | src/memora/supabase_sync.py:151-172 | The rows raise iff some line is a non-object. Otherwise there is at most one row per line, each well formed and each the row of some line, and every line's row is present. |
| Sync.LoadLongtermRows | src/memora/supabase_sync.py:145-172 | The append loop computes the rows of the log, or [] when it is missing. The engine copy has the same code at engine/supabase_sync.py:151-175. |
| Sync.PushOutcome | src/memora/supabase_sync.py:175-197 | A request is made iff there is a valid row. It posts one record per row in file order, tagged with the server id, and reports the row count. |
| Sync.RestoredFields | src/memora/supabase_sync.py:130-139 | Each reserved key is the row's value when present, a null when the row holds null, and otherwise the default: the resolved id (null when none), the local timestamp, "" and []. The snapshot never overrides them. Every other key of an object snapshot is copied, and no other key appears. The engine copy has the same code at engine/supabase_sync.py:135-145. |
| Sync.UpsertThenRestore | src/memora/supabase_sync.py:92-99 | Pushing a session's row and restoring it gives the session back, except that an absent id comes back null and an absent summary or conversation comes back as "" or []. Null keys stay null. |
| Sync.PullSession | src/memora/supabase_sync.py:111-142 | `pull_session` against the files follows the pull step. |
| Sync.PullNotFoundSavesNothing | src/memora/supabase_sync.py:127-128 | No remote row: ok is false and nothing is saved beyond what the local load wrote. |
| Sync.PullRestores | src/memora/supabase_sync.py:130-142 | After a pull that found a row, the next load returns the restored session, stamped by the save, and the previous file is the backup. |
| Sync.PullLongterm | src/memora/supabase_sync.py:200-218 | A configuration error writes nothing. Otherwise it writes one dumped line per row, joined, and reports their count. The engine copy's loop is at engine/supabase_sync.py:219-224. |
| Sync.PulledTextLines | src/memora/supabase_sync.py:217 | The text is empty iff no line, ends with "\n" iff some line, and splits back into the lines when none holds a line boundary. |
| Sync.PullThenLoad | src/memora/supabase_sync.py:216-217 | Pulling then loading gives the pulled rows with non-blank text, in order, when each record dumps to one clean line. |
| Settings.LoadSettingsFallback | src/memora/settings.py:19-29 | A missing, unparseable or non-object file gives {}. An object is returned as is. |
| Settings.SaveThenLoad | src/memora/settings.py:32-35 | Loading what was saved gives it back when decoding undoes the dump. |
| Settings.ResolveValueFirst | src/memora/settings.py:38-44 | None iff no candidate is usable. Otherwise the first usable candidate, stripped. |
| Settings.ResolveValueClean | src/memora/settings.py:42-43 | A resolved value is non-empty and unpadded. |
| Settings.ResolveSettingPrecedence | src/memora/settings.py:47-49 | The environment variable wins, then the settings key, then the default, each only when non-blank. |
| Settings.SuggestedUserNameFacts | src/memora/settings.py:60-61 | Never empty: git's name, else `$USER`, else "unknown-user". |
| Settings.MaskSecretPositiveKeep | src/memora/settings.py:72-77 | For keep at least 1: None and "" give "". A value no longer than keep becomes stars of its length. A longer one keeps its last keep characters behind stars, with the same length. |
| Settings.MaskSecretZeroKeepShowsSecret | src/memora/settings.py:77 | With keep 0 the whole secret follows the stars (see Findings). |
| Settings.MaskSecretZeroKeepExample | src/memora/settings.py:77 | "abc" with keep 0 masks to "***abc". |
| Settings.MaskSecretNegativeKeep | src/memora/settings.py:72-77 | A negative keep prints `len - keep` stars, more than the secret's length, then the secret minus its first `-keep` characters (see Findings). |
| Settings.MaskSecretNegativeKeepExample | src/memora/settings.py:77 | "abc" with keep -1 masks to "****bc". |
| Settings.MaskSecretCorrected | src/memora/settings.py:72-77 | The corrected masking keeps the length and shows at most max(keep, 0) trailing characters. |
| Settings.MaskSecretCorrectedAgrees | src/memora/settings.py:72-77 | The correction agrees with the source for every positive keep. |
| Tmux.Normalize | engine/tmux_manager.py:24 | The result is all in [a-zA-Z0-9_-], no longer than the input, and non-empty for a non-empty input. |
| Tmux.NormalizeCollapse | engine/tmux_manager.py:24 | Allowed characters before a maximal run of other characters are kept in order, the whole run becomes one "-", and the rest is normalised on its own. With `NormalizeAllowed` this fixes the result for every string. |
| Tmux.TmuxNameShape | engine/tmux_manager.py:23-25 | The name starts with "memora-", has at most 80 allowed characters, and continues with the start of the normalised stripped id. |
| Tmux.NormalizeIdempotent | engine/tmux_manager.py:24 | Normalising twice is normalising once. |
| Tmux.NormalizeAllowed | engine/tmux_manager.py:24 | A string of allowed characters is left unchanged. |
| Tmux.TmuxNameKeepsValidId | engine/tmux_manager.py:24-25 | An id of at most 73 allowed characters maps to "memora-" + id. |
| Tmux.AttachCommandWords | engine/tmux_manager.py:53-54 | The attach command splits into tmux, attach-session, -t and the name. |
| Tmux.NewSessionOutcome | engine/tmux_manager.py:33-43 | An existing session is reported without a new-session call. Otherwise exactly one new-session is issued, with the command when non-empty, and "created:" + name on exit 0; any other exit code fails with the first non-empty of stderr, stdout and "tmux new-session failed", stripped. |
| Tmux.FailureTextCanBeEmpty | engine/tmux_manager.py:42 | As written, whitespace-only error output yields an empty failure message (see Findings). |
| Tmux.FailureTextCorrected | engine/tmux_manager.py:42 | The corrected failure text is never empty and is stripped. |
| Tmux.NewSessionCorrectedFacts | engine/tmux_manager.py:33-43 | The correction keeps every success and every non-blank failure message of the source, and never fails with an empty message. |
| Tmux.NonBlankStripped | engine/tmux_manager.py:50 | The listed names are non-empty and stripped, at most one per line. |
| Tmux.NonBlankStrippedLine | engine/tmux_manager.py:50 | One line gives its stripped text when that is non-empty, and nothing otherwise. |
| Tmux.NonBlankStrippedConcat | engine/tmux_manager.py:50 | The filter works line by line, in order: the names of joined line lists are the joined names. With `NonBlankStrippedLine` this fixes the result for every list. |
| Tmux.NonBlankStrippedListsAll | engine/tmux_manager.py:50 | Every non-blank line is listed, stripped. |
| Tmux.NonBlankStrippedOnlyLines | engine/tmux_manager.py:50 | Every listed name is some line, stripped. |
| Tmux.ListSessionsReadsNames | engine/tmux_manager.py:46-50 | A failed listing gives []. Names printed one per line read back exactly, in order. |
| Tmux.TmuxNameListed | engine/tmux_manager.py:46-50 | A session name from the normaliser is read back unchanged by the listing. |
| Bootstrap.DefaultSkillsRootPrecedence | src/memora/bootstrap.py:9-18 | A non-blank `MEMORA_SKILLS_DIR`, else `CODEX_HOME`/skills, else ~/.codex/skills. |
| Bootstrap.SkillHeaderLines | src/memora/bootstrap.py:21-27 | The front matter reads back as "---", "name: N", "description: D", "---", "". |
| Bootstrap.OpenAiYamlLines | src/memora/bootstrap.py:30-37 | The agent file reads back as its version, interface and three indented field lines. |
| Bootstrap.Put | src/memora/bootstrap.py:225-226 | Dictionary assignment keeps keys distinct, maps the key to the new value, and leaves the other entries in place. |
| Bootstrap.PutScriptsFacts | src/memora/bootstrap.py:225-226 | Each script path maps to its last content, and entries outside scripts/ stay. |
| Bootstrap.FilesToWriteOrder | src/memora/bootstrap.py:211-226 | SKILL.md, the agent file and the quickstart come first, in order, and no path appears twice. |
| Bootstrap.FilesToWriteContents | src/memora/bootstrap.py:211-226 | The dictionary maps the three fixed files to their texts and every script under scripts/ to its content. |
| Bootstrap.SkillFileContents | src/memora/bootstrap.py:212 | SKILL.md is the front matter followed by the body. |
| Bootstrap.MkdirAllOutcome | src/memora/bootstrap.py:204-207 | Making the directories touches no file and fails exactly at the first refused one. |
| Bootstrap.WriteAllFailure | src/memora/bootstrap.py:232-235 | Writing fails exactly when some path is refused, at a refused path, and leaves directories alone. |
| Bootstrap.WriteAllSuccess | src/memora/bootstrap.py:232-235 | When nothing fails, each file holds its text, files under scripts/ get mode 0o755, and nothing else changes. |
| Bootstrap.SkillStepOutcome | src/memora/bootstrap.py:204-242 | Skipped iff the directories were made and SKILL.md existed without overwrite. Created iff it did not exist and all succeeded. Updated iff it existed with overwrite and all succeeded. Failed otherwise, at a refused path. |
| Bootstrap.SkillStepEffect | src/memora/bootstrap.py:204-240 | A skipped skill writes nothing. A created or updated one has every file with its text and its scripts executable, and no other file changes. |
| Bootstrap.ScriptsExecutable | src/memora/bootstrap.py:225-235 | Every script lands in scripts/ and is made executable. |
| Bootstrap.TallyFilters | src/memora/bootstrap.py:228-242 | The four lists are the catalog filtered by outcome, in catalog order. |
| Bootstrap.FiltersPartition | src/memora/bootstrap.py:193-242 | The four lists together are as long as the catalog. |
| Bootstrap.FiltersMembership | src/memora/bootstrap.py:193-242 | Each skill is in the list its outcome picks. |
| Bootstrap.ErrorsEmptyIff | src/memora/bootstrap.py:241-250 | No error is recorded iff no skill failed. |
| Bootstrap.RunSteps | src/memora/bootstrap.py:193 | Each skill's outcome is its step on the tree the earlier skills left. |
| Bootstrap.EnsureReport | src/memora/bootstrap.py:184-251 | A refused root escapes. Otherwise the report names the root, the lists are the outcome filters in catalog order and sum to the catalog, and ok holds iff no skill failed. |
| Bootstrap.SkillsDir.InstallSkill | src/memora/bootstrap.py:194-242 | One loop body against the tree follows the skill step, with its OSError caught as a failed outcome. |
| Bootstrap.SkillsDir.EnsureDefaultSkills | src/memora/bootstrap.py:184-251 | The loop over the catalog returns the report and leaves the tree that the ensure step computes. |

## Left out

- HTTP (`_request_json`), its timeout and its error text: the server's answer is a parameter, and request failures are not modelled.
- `run_external`, `_run_tmux`, `tmux_available` and `_git_config`: these are subprocesses. Their results are parameters (`_git_config` is reduced to its strip-and-empty rule).
- JSON encoding and decoding, SHA-256, timestamp formatting, `socket.gethostname` and `expanduser().resolve()` are parameters. The model does not relate `json.dumps` to `json.loads` except where a lemma assumes it. Python's key order in dictionaries is not modelled except in `files_to_write`.
- The session codec. A session file is either a decodable session or garbled text. Partial writes of the temporary file are modelled as garbled content in `SaveTrace`, and the rename as atomic.
- Concurrent writers and locking: one writer at a time.
- Case mapping: `lower`, `upper` and `title` are ASCII-only. `strip` and `split` use Python's whitespace set.
- A role whose JSON value is not a string. Roles and content are strings or absent; `str()` of other values is not modelled in the compressor or formatter.
- Sync.PullThenLoad: `json.dumps(..., ensure_ascii=False)` writes U+2028, U+2029 and U+0085 unescaped, and `splitlines` splits on them. The round trip is stated only for a `dumps` whose lines hold no line boundary, and the case that breaks it is not modelled further.
- `suggested_user_email`, `suggested_server_id`, `settings_path` and `supabase_status`: these apply the same `resolve_value` to other inputs, or are a bare HTTP call.
- Bootstrap: the static skill catalog text (src/memora/bootstrap.py:40-181) is a parameter. Paths are strings joined with "/", without pathlib normalisation. An `OSError`'s text is modelled as the failing path. Failures of `exists()` and `chmod` are not modelled separately from those of `write_text`.
- Bootstrap.FiltersPartition: "exactly one list" is stated as the length sum together with `FiltersMembership`, not as a multiset equation.
- Sessions.Prune on a null conversation: `add_message`, its only caller, raises first, so the rotation is stated for sessions whose conversation is absent or a list.
- A null `last_updated` is not told apart from an absent one: every reader uses `.get`, and every save overwrites the key.
- The clock: each `Instant` stands for all of one operation's `datetime.now()` readings. The source reads it several times (src/memora/session_manager.py:16-17, 28-29, 100), so the default id's date, the rotation note and the archive name are taken to agree with the saved timestamp.
- The workspace path resolution (`MEMORA_HOME`, `workspace_root`) and the CLI's argument parsing and JSON printing: paths are abstract names, and only the printed text of a turn is kept.
- SessionStoreFacts.SaveCrashSafe: promises that a crash leaves a loadable old or new session only when the active file decodes or is missing. With an undecodable active file, which `init_session(overwrite=True)` passes to the save, the source's backup copy can make the next load raise (see Findings). The model's operations keep the source's save; the corrected one is proved crash safe beside it.

## Findings

| source | as written | input that shows it | evidently intended | confidence | as-written member | corrected member |
|---|---|---|---|---|---|---|
| src/memora/settings.py:72-77 | `mask_secret(value, keep)` with `keep <= 0` returns the stars followed by `value[-keep:]`: the whole value for 0, all but the first `-keep` characters for a negative keep | `mask_secret("abc", 0)` gives "***abc"; `mask_secret("abc", -1)` gives "****bc" | never show more than `max(keep, 0)` trailing characters, and keep the length | not executed | Settings.MaskSecretZeroKeepExample, Settings.MaskSecretNegativeKeepExample | Settings.MaskSecretCorrected |
| src/memora/session_manager.py:65-66 | `save_session` copies the active file over the backup even when it does not decode; `init_session(overwrite=True)` saves without loading first | active file "x" (not JSON), backup a valid session b: the load returns b; `init_session(overwrite=True)` crashing after the backup copy leaves both files undecodable and the next load raises `JSONDecodeError` | copy only an active file that decodes, so the backup stays the last good session and a crash never makes things worse | not executed | SessionStoreFacts.SaveCanDestroyBackup | SessionStoreFacts.SaveCorrectedCrashSafe |
| engine/tmux_manager.py:42 | the failure text takes the first non-empty stream before stripping, so whitespace-only stderr yields an empty message | `new-session` exits 1 with stdout "" and stderr "\n": `(False, "")` | a non-empty error text, falling back to "tmux new-session failed" | not executed | Tmux.FailureTextCanBeEmpty | Tmux.FailureTextCorrected |
