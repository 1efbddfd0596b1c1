# sugartown-cms in Dafny

A model of the publishing core of sugartown-cms, a small content system that keeps
its "gems" (short knowledge records) in a Python source file and pushes them to a
WordPress REST store, together with the text tools around it. There is one module
per source file of the core, plus `Common`, which holds the shared vocabulary
(`Option`, Python truthiness, ASCII character classes, and `lower`, `strip`,
`split`, `join`, `replace`, `find` and `str(int)` written out over `seq<char>`).

- `PublishGem` (publish_gem.py): the current reconciliation engine. `SimplifyKey`
  makes the comparison keys. The `Publisher` class holds the category, tag and gem
  indexes and the persisted hash `state` as fields. Its `BuildCache` fills the
  indexes page by page, `GetTermId` provisions missing terms, and `PublishGem`
  and `PublishAll` run the per-gem loop: resolve the id, hash the payload, then
  skip, update or create, and record the result. Each method is proved equal to
  a pure step function on an `Engine` value, and the skip, write and state rules
  are lemmas about that function.
- `LastGoodEngine` (backups/publish_gem.last_good.py): the older engine, modelled
  as written and separately from the current one. It has the title, content and
  status fingerprint, the backup naming rule, the "code changed?" check,
  explicit-id-first identity with smart-quote tolerant title search, and the
  log line formats. The `Runner` class owns the working directory, a map from
  path to bytes, and the content state.
- `RevertChanges` (scripts/revert_changes.py): the rollback script, as a
  `Workspace` whose `Rollback` goes through the same guarded early returns as
  the script and ends by overwriting one live file and appending to the log.
- `MergeContent` (merge_content.py): gem extraction, the title and body readers,
  the index-based body splice, the title-keyed merge and the rebuild of the list.
  The regular expressions are written out as the scans Python's `re` performs.
- `EthicsPage` (publish_ethics_page.py): the line-by-line Markdown converter. It
  has the code-block flag, the nested list stack, the metadata buffer, anchor
  slugging and the inline substitutions.
- `IngestResume` (scripts/ingest_resume.py): slot clustering with manual slot
  ids, orphans and automatic slots, header and variant-type deduplication, the
  education and summary passes, and the experience loop.
- `BuildResume` (build_resume.py): variant selection with the master fallback,
  and the Markdown sections of the résumé.
- `LayoutEngine` (layout_engine.py): the pink card grid serialiser.

The remote store is an oracle. The engines' HTTP requests are recorded in a `sent`
list, and their answers come from queues of replies given as inputs. md5 over the
JSON payload is an abstract deterministic function passed as a parameter, and so
are timestamps, the typed answers of `input()`, and the similarity test of the
ingestion (`SequenceMatcher.ratio() > 0.45`). A cell that pandas reads as NaN is
`None`.

Each loop of the source is a `method` with its invariants. Its `ensures` ties the
result or the new state to a specification function, and the lemmas prove what the
source promises about that function.

## Model

| member | source | states |
|---|---|---|
| PublishGem.SimplifyKey | publish_gem.py:39-43 | empty input gives the empty key, and every character of a key is in [a-z0-9] |
| PublishGem.SimplifyKeyIdempotent | publish_gem.py:39-43 | normalising a key again returns it unchanged |
| PublishGem.LoadState | publish_gem.py:88-91 | a missing state file loads as the empty map, a readable one as its entries, and an unreadable one ends the run |
| PublishGem.CachePagesGrows | publish_gem.py:45-65 | caching only adds keys to a cache, and every key it holds stays a normalised key |
| PublishGem.CacheFirstPageFails | publish_gem.py:53-55 | a listing whose first page is not a non-empty 200 page caches nothing |
| PublishGem.CachePagesLoop | publish_gem.py:48-64 | the page loop leaves the cache `CachePages` gives, and stops at the first error, empty page or raised item |
| PublishGem.CacheItemsLoop | publish_gem.py:57-61 | the item loop inserts each named item under its normalised name, and an item without `id` ends the listing |
| PublishGem.Publisher.BuildCache | publish_gem.py:45-65 | only the selected cache changes, and it becomes `CachePages` of its old value |
| PublishGem.TermIdHit | publish_gem.py:71-72 | on a cache hit the cached id is returned and no request is issued |
| PublishGem.TermIdCreated | publish_gem.py:74-80 | on a miss answered with 201 one create request is sent, the new id is cached under the key, and a later name with the same key reuses it without a request |
| PublishGem.TermIdNotCreated | publish_gem.py:74-82 | any other outcome of a miss returns None and leaves every cache and the state unchanged |
| PublishGem.TermIdFacts | publish_gem.py:70-82 | a lookup changes only its own cache, never removes or changes a cached entry, and issues at most term requests |
| PublishGem.Publisher.GetTermId | publish_gem.py:70-82 | the method returns the id and leaves the state that `TermId` gives |
| PublishGem.ResolveTermsFacts | publish_gem.py:137-147 | the id list holds only truthy ids of the cache, is no longer than the names, and resolving touches only its own cache |
| PublishGem.TermIdResult | publish_gem.py:70-82 | an id a lookup returns is the one its key then holds in the cache; a lookup that returns none found the key uncached |
| PublishGem.ResolveTermsLookups | publish_gem.py:137-147 | the id list is exactly the truthy results of the names' own lookups, in name order; a name that got an id got the one its key holds in the final cache, and a name that got none was not cached at the start |
| PublishGem.ResolveTermsCached | publish_gem.py:137-147 | when every name is cached, no request is made, nothing changes, and the ids are the truthy cached ids of the names, in input order |
| PublishGem.Publisher.ResolveTermIds | publish_gem.py:137-147 | the loop returns the ids and leaves the state that `ResolveTerms` gives |
| PublishGem.ResolveTarget | publish_gem.py:129-134 | a resolved target is never the falsy id 0 |
| PublishGem.ResolveTargetRule | publish_gem.py:129-134 | the normalised-title match wins; an explicit id is used only without a title match, and only when it is one of the gem index's ids |
| PublishGem.Prepare | publish_gem.py:129-182 | preparing a record leaves the state, its file and the gem index unchanged |
| PublishGem.StepSkipRule | publish_gem.py:181-185 | a record is skipped iff the target is set and the stored hash under `str(target)` equals the payload's hash; a skip sends no write and changes neither the state nor the gem index |
| PublishGem.StepWriteRule | publish_gem.py:187-198 | without a skip exactly one write follows the term requests: an update of the target when it is set, otherwise a create |
| PublishGem.StepStateRule | publish_gem.py:186-209 | without a skip, a raised request aborts the run, a 200/201 reply is a write under the reply's id, and any other status is a failure carrying that status; on 200/201 the state gets the hash under the returned id, the gem index gets the id under the title key, nothing else changes and the state is saved; otherwise neither changes |
| PublishGem.StepIdempotent | publish_gem.py:127-209 | after a successful write with a truthy id, and with all terms cached beforehand, processing the same record again is a skip with no request |
| PublishGem.PrepareCached | publish_gem.py:129-179 | with all terms cached, preparing issues no request, changes nothing, and the payload carries the truthy cached ids |
| PublishGem.WriteKeepsTerms | publish_gem.py:200-206 | a successful write leaves the term caches as preparing left them |
| PublishGem.Publisher.PublishGem | publish_gem.py:127-209 | one record gives the outcome and the new state of `Step` |
| PublishGem.RunKeepsPersisted | publish_gem.py:127-209 | the whole loop keeps the saved state file equal to the in-memory state |
| PublishGem.RunStopped | publish_gem.py:192-196 | once a write has raised, later records change nothing |
| PublishGem.Publisher.PublishAll | publish_gem.py:125-209 | the loop leaves the state `Run` gives, stopping at the first raised write |
| PublishGem.PublishPersists | publish_gem.py:100-209 | a run from a readable or missing state file ends with the file agreeing with the state |
| PublishGem.RunPublisher | publish_gem.py:100-209 | the program loads the state, caches categories, tags and gems, then runs the loop, as `Publish`, with the governance check of lines 108-115 removed |
| LastGoodEngine.ContentHashFields | backups/publish_gem.last_good.py:28-32 | the fingerprint does not depend on the metadata or the id, and a missing status hashes as 'draft' |
| LastGoodEngine.ContentHashBoundary | backups/publish_gem.last_good.py:31 | title, content and status are concatenated with no separator, so text moved across the title/content boundary gives the same hash |
| LastGoodEngine.LoadContentState | backups/publish_gem.last_good.py:34-41 | a missing or unreadable state file gives the empty map; a readable one gives its entries |
| LastGoodEngine.LogChangeIsOneLine | backups/publish_gem.last_good.py:48-51 | a change entry starts with `[ts] [ACTION (STATUS)] `, action and status upper-cased, ends with `title (ID: id)` and a newline, and holds exactly one newline when none of its fields holds a newline |
| LastGoodEngine.LogErrorIsOneLine | backups/publish_gem.last_good.py:58-60 | an error entry starts with `[ts] [ERROR] title - Status: code - Message: ` and ends with the message and a newline; it holds one newline more than the message, so it is one line exactly when the reply's text holds no newline (the time stamp and title holding none) |
| LastGoodEngine.BackupNameOfModule | backups/publish_gem.last_good.py:78 | a module `<stem>.py` with a dot-free stem is backed up as `backups/<stem>.last_good.py` |
| LastGoodEngine.CopyEachEffect | backups/publish_gem.last_good.py:76-84 | each existing listed file's backup holds its bytes; a missing file leaves its backup slot unchanged and the loop goes on; no other path changes |
| LastGoodEngine.BackedUpDisjoint | backups/publish_gem.last_good.py:70-78 | the two backup names are distinct and neither is a live file name, so the copies do not interfere |
| LastGoodEngine.Runner.CreateBackup | backups/publish_gem.last_good.py:68-84 | the copy loop leaves the file map as `CopyEach` of the listed files, and nothing else changes |
| LastGoodEngine.HashTrackedRule | backups/publish_gem.last_good.py:100-111 | a tracked file is among the changes iff it is readable and has no recorded hash or a different one; the current state holds the hash of exactly the readable tracked files |
| LastGoodEngine.CheckCodeChangesRule | backups/publish_gem.last_good.py:87-118 | when some tracked file changed, exactly one log entry is appended and the system state is rewritten with the readable files' hashes; otherwise nothing changes; the files, the content state and the error log never change |
| LastGoodEngine.Runner.CheckCodeChanges | backups/publish_gem.last_good.py:87-118 | the loop and the final write leave the state equal to `CodeCheck` of the old state |
| LastGoodEngine.QuoteNormPointwise | backups/publish_gem.last_good.py:135-136 | the quote normalisation keeps the length and maps each character on its own: both curly double quotes to `"`, the curly apostrophe to `'` |
| LastGoodEngine.QuoteNormIdempotent | backups/publish_gem.last_good.py:135-136 | normalising twice equals normalising once |
| LastGoodEngine.SmartQuotesMatch | backups/publish_gem.last_good.py:133-138 | a rendered title without character references that differs from the local title only in curly versus straight quotes matches it |
| LastGoodEngine.FirstMatch | backups/publish_gem.last_good.py:131-139 | the index found is that of a matching result with no matching result before it, and no index means that no result matches |
| LastGoodEngine.FindGemIdExplicit | backups/publish_gem.last_good.py:122-123 | with an `id` key its value is returned as it is, even when it is None, with no request and no state change |
| LastGoodEngine.FindGemIdSearch | backups/publish_gem.last_good.py:125-140 | without an id, one search is sent; on a 200 reply an id is found iff some result matches, and then it is the id of the first matching result |
| LastGoodEngine.Runner.FindGemId | backups/publish_gem.last_good.py:121-140 | the lookup method returns what `GemLookup` returns and leaves the state `GemLookup` gives |
| LastGoodEngine.StepSkipRule | backups/publish_gem.last_good.py:155-159 | a record is skipped iff the resolved id is truthy and the stored hash under it equals the record's hash; a skip writes nothing and logs nothing |
| LastGoodEngine.StepSuccessRule | backups/publish_gem.last_good.py:161-182 | once resolved and not skipped, the run aborts iff the write raised or a 200/201 body has no `link`; the write is logged iff the reply is 200/201 with a `link`, under the resolved id, or the reply's id for a create answered 201; on 200/201 exactly one change entry is appended, and the hash is stored and saved under the id iff the id is truthy; otherwise the state and the file are unchanged |
| LastGoodEngine.StepSuccessEntry | backups/publish_gem.last_good.py:161-177 | the entry appended on 200/201 is the `log_change` line of the write: "Updated" for a truthy resolved id and "Created" otherwise, with the title, the id the gem ends with, and its status (default "draft") |
| LastGoodEngine.StepNoneIdCreates | backups/publish_gem.last_good.py:122-123 | a gem whose `id` key holds None is returned as is, so no search is sent and the step's one request is a create |
| LastGoodEngine.StepCreateNeeds201 | backups/publish_gem.last_good.py:167-176 | a create answered with 200 and a `link` is logged but stores no hash, because only a 201 supplies the new id |
| LastGoodEngine.StepFailureRule | backups/publish_gem.last_good.py:174-185 | the write fails, with the reply's status, iff it is answered with a status other than 200/201; a failed write appends exactly one error entry and changes neither the content state, its file nor the change log |
| LastGoodEngine.Runner.ProcessGem | backups/publish_gem.last_good.py:149-185 | one iteration of the main loop gives the outcome and the new state of `Step` |
| LastGoodEngine.StepKeepsPersisted | backups/publish_gem.last_good.py:179-182 | each step keeps the saved state file equal to the in-memory state (or both empty) |
| LastGoodEngine.RunKeepsPersisted | backups/publish_gem.last_good.py:149-185 | the whole loop keeps the saved state file equal to the in-memory state |
| LastGoodEngine.LastGoodRunPersists | backups/publish_gem.last_good.py:143-185 | whatever the state file held at the start, the script ends with the file agreeing with memory |
| LastGoodEngine.Runner.ProcessAll | backups/publish_gem.last_good.py:149-185 | the loop leaves the state `Run` gives and stops at the first raised request |
| LastGoodEngine.RunStopped | backups/publish_gem.last_good.py:149-185 | once a run has aborted, later records change nothing |
| LastGoodEngine.RunLastGood | backups/publish_gem.last_good.py:143-185 | the script backs up, checks the code, loads the fingerprints and runs the loop, as `LastGoodRun` |
| RevertChanges.EarlyExitsChangeNothing | scripts/revert_changes.py:29-53 | an unknown selection, a missing backup, a declined confirmation and a failed copy each change no file and write no log |
| RevertChanges.RestoreEffect | scripts/revert_changes.py:56-59 | after a restore the live file holds the backup's bytes, every other path is unchanged, and one `[ts] [ROLLBACK] Restored <live> from backup (<time>)` entry is appended when the log write succeeds |
| RevertChanges.RestoreIff | scripts/revert_changes.py:31-57 | a restore happens iff the selection is known, the backup exists, the answer lower-cases to 'y' and the copy succeeds |
| RevertChanges.BackupPathsFollowBackupRule | scripts/revert_changes.py:11-14 | each entry's live file is one the older engine backs up, and its backup path is the older engine's backup name for it |
| RevertChanges.Workspace.LogRevertEntry | scripts/revert_changes.py:16-20 | the files stay as they are, and the one entry is appended when the write succeeds |
| RevertChanges.Workspace.Rollback | scripts/revert_changes.py:22-61 | the method's outcome, files and log are those of `Revert` on the old files and log |
| MergeContent.ListBody | merge_content.py:14 | a match's group starts after an `all_gems = [` header that has a `\n]` after it and ends at the first `\n]` after the bracket; there is no match exactly when no header is followed by a `\n]` |
| MergeContent.ListBodyLeftmost | merge_content.py:14 | the match found is the leftmost: no earlier position matches the whole pattern |
| MergeContent.ExtractedGems | merge_content.py:14-17 | when the pattern matches nowhere (no header, a header without its `[`, or no `\n]` after any header) no gems are returned; in particular a text without `all_gems` yields none |
| MergeContent.KeptBlocksShape | merge_content.py:24-33 | every kept block is non-blank and starts with '{' after stripping; no more blocks are kept than split, and all are kept when none is blank |
| MergeContent.ExtractedGemsShape | merge_content.py:11-35 | every extracted gem is non-blank and starts with '{' after stripping |
| MergeContent.KeepBlocks | merge_content.py:24-33 | the loop returns `KeptBlocks` of the split blocks |
| MergeContent.ExtractGems | merge_content.py:11-35 | the method returns `ExtractedGems` of the text |
| MergeContent.GetGemTitle | merge_content.py:37-40 | a title is a non-empty single line found after a `'title':` key, and a text without the key has no title |
| MergeContent.TitleAtShape | merge_content.py:39 | a title found at a position follows the `'title':` key, a white-space run and an opening quote; it is at least one character, holds no newline, and ends just before the first quote after its first character |
| MergeContent.FirstTitleLeftmost | merge_content.py:39 | the title found is the one at the leftmost position where the pattern matches; no earlier position matches |
| MergeContent.GetGemTitleRule | merge_content.py:37-40 | the title is the group of the leftmost match of `'title':\s*['"](.+?)['"]`, with the shape above, and it is None exactly when the pattern matches nowhere |
| MergeContent.ContentMatch | merge_content.py:44-51 | a found body is the text between an opening `'content':` marker and the first closing marker after it, at a position where the whole pattern matches; none means the pattern matches nowhere |
| MergeContent.ContentMatchLeftmost | merge_content.py:44-51 | the body found is the one of the leftmost position where the whole pattern matches |
| MergeContent.GetGemContentRule | merge_content.py:42-59 | when the `"""` pattern matches anywhere, the result is the body of its leftmost match; only when it matches nowhere is the leftmost `'''` body used; the result is None exactly when neither pattern matches |
| MergeContent.ReplaceUnchanged | merge_content.py:64-90 | when the opening `'content':` marker or the closing triple quote after it is missing, the gem is returned unchanged |
| MergeContent.ReplaceSplices | merge_content.py:70-94 | with both markers found, the result is the gem up to and including the opening marker, the new body, then the gem from the closing marker on, and that prefix and suffix are the gem's own text |
| MergeContent.DoubleQuotedBodyClean | merge_content.py:45-47 | a body read between triple double quotes holds no triple double quote and does not end with a double quote |
| MergeContent.ReplaceThenGet | merge_content.py:44-80 | in a gem with a well-formed triple-double-quoted body, putting in a body with no triple double quote and no trailing double quote and reading it back gives that body |
| MergeContent.ContentMapSource | merge_content.py:119-124 | every entry of the old content map is the non-empty body of the last old gem that has that title and a body |
| MergeContent.ContentMapHasTitles | merge_content.py:119-124 | every old gem with a title and a non-empty body gives the map an entry for its title |
| MergeContent.BuildContentMap | merge_content.py:119-124 | the loop returns `ContentMap` of the old gems |
| MergeContent.MergedShape | merge_content.py:130-149 | the merge keeps the number and order of the new gems, changes a gem only when its title is a key of the map, counts matched and unmatched gems apart, and no unmatched title is a key |
| MergeContent.MergeCarriesBody | merge_content.py:137-141 | a new gem whose title maps to a body read from an old triple-double-quoted string gets exactly that body |
| MergeContent.MergeGems | merge_content.py:130-149 | the loop returns `Merged`, `Matched` and `Unmatched` of the new gems |
| MergeContent.PreGems | merge_content.py:161 | the text before the list is a prefix of the new store |
| MergeContent.LastNewline | merge_content.py:164 | the position found holds a newline with none after it, and no position means the text has no newline |
| MergeContent.PostGems | merge_content.py:164-165 | the text after the list is a suffix of the new store |
| MergeContent.EntryShape | merge_content.py:170-178 | every emitted entry is indented, starts with '{', ends with ',' and then a newline |
| MergeContent.CleanUp | merge_content.py:172-176 | the clean-up gives `CleanGem` of the gem |
| MergeContent.RebuildContent | merge_content.py:167-180 | the loop returns the text before the list, the header, one entry per merged gem, the closing bracket and the text after the list |
| MergeContent.MergeStores | merge_content.py:96-184 | the merger writes only the merged store, and only when both inputs exist; every other file keeps its text |
| MergeContent.Merge | merge_content.py:96-184 | the method gives `MergeStores` and the matched count and unmatched titles of the merge |
| EthicsPage.InlinePlain | publish_ethics_page.py:152-169 | text with no backslash, '[', '*' or backquote comes back unchanged |
| EthicsPage.DelimitedWhole | publish_ethics_page.py:160-167 | a non-empty span with no delimiter character, wrapped in the delimiter, becomes the replacement markup around it |
| EthicsPage.HeaderMatch | publish_ethics_page.py:116-118 | a header's level is its count of leading '#', between 1 and 6 |
| EthicsPage.AnchorShape | publish_ethics_page.py:120-129 | an anchor id is lower-case, holds only word characters and '-', has no white space, and neither starts nor ends with '-' |
| EthicsPage.Hyphenate | publish_ethics_page.py:127 | the result has no white space, and each character is a '-' or one of the input's |
| EthicsPage.StripDash | publish_ethics_page.py:129 | the result neither starts nor ends with '-', and each character is one of the input's |
| EthicsPage.KeepAnchorChars | publish_ethics_page.py:124 | only word characters, white space and '-' remain, and no upper-case letter is introduced |
| EthicsPage.CloseDeeper | publish_ethics_page.py:84-85 | the remaining stack is a prefix of the old one whose top is no deeper than the level |
| EthicsPage.ListItemFacts | publish_ethics_page.py:81-108 | after a list item the stack is strictly increasing with the item's level on top, the item is the last line emitted, the open/close balance is kept, and at most one list is opened |
| EthicsPage.RunWf | publish_ethics_page.py:44-145 | after every line the list levels strictly increase up the stack, the metadata buffer is empty inside a code block, and every emitted `<ul>`/`<ol>` is closed or still on the stack |
| EthicsPage.FinalBalanced | publish_ethics_page.py:146-150 | in the finished output the `<ul>` count equals the `</ul>` count and the `<ol>` count equals the `</ol>` count |
| EthicsPage.MetaBounded | publish_ethics_page.py:66-69 | the metadata buffer never holds more than five entries |
| EthicsPage.MetaRule | publish_ethics_page.py:47-74 | a metadata line among the first five is buffered and emits nothing; any other line outside a code block empties the buffer, which is emitted first as one paragraph |
| EthicsPage.FenceRule | publish_ethics_page.py:46-59 | a fence toggles the code-block flag, flushes the buffer as a plain paragraph and emits the opening `<pre><code class="language-X">` or the closing tag; no other line changes the flag |
| EthicsPage.CodeBlockVerbatim | publish_ethics_page.py:61-63 | inside a code block every line up to the next fence is copied as it is, and nothing else changes |
| EthicsPage.HeaderRule | publish_ethics_page.py:110-132 | a header line outside a code block closes every open list and emits one `<hN id="anchor">` line with N its count of leading '#' |
| EthicsPage.BlankRule | publish_ethics_page.py:139-141 | a blank or all-white-space line outside a code block emits nothing of its own, only the buffered metadata and the closing tags of the open lists |
| EthicsPage.PopDeeper | publish_ethics_page.py:84-85 | the pop loop leaves the stack and lines that `CloseDeeper` gives |
| EthicsPage.PopAll | publish_ethics_page.py:147-148 | the final pop loop appends `CloseAll` of the stack |
| EthicsPage.AddItem | publish_ethics_page.py:82-93 | the list-item branch gives the stack and lines of `ListItem` |
| EthicsPage.FlushMeta | publish_ethics_page.py:72-74 | a non-empty buffer is appended as one paragraph, an empty one appends nothing |
| EthicsPage.TextLine | publish_ethics_page.py:71-144 | the text branch gives the state of `TextStep` |
| EthicsPage.ConvertLine | publish_ethics_page.py:44-144 | one iteration gives the state of `Step` |
| EthicsPage.ConvertMarkdownToHtml | publish_ethics_page.py:32-150 | the converter returns `MarkdownToHtml` of the text |
| IngestResume.ToBullet | scripts/ingest_resume.py:46-60 | a row without content yields no bullet; otherwise the bullet keeps the content, the slot id and the skill header, and its type is the row's variant type or "CMS-DS-PDM-01" when that is missing |
| IngestResume.GroupedFacts | scripts/ingest_resume.py:45-67 | the manual slots are exactly the distinct truthy slot ids in order of first appearance, each holding every bullet with that id in row order; the bullets without a truthy id are the orphans, in row order |
| IngestResume.ManualClusters | scripts/ingest_resume.py:72-73 | one cluster per manual slot id, in insertion order, holding that slot's bullets |
| IngestResume.FirstSimilar | scripts/ingest_resume.py:78-83 | the index of the first cluster whose first variant the orphan is similar to, with no earlier cluster similar; none only when no cluster is similar |
| IngestResume.Slug | scripts/ingest_resume.py:86 | the slug holds no white space, ',' or '.'; there is none (the source raises) exactly when the lower-cased name is all white space |
| IngestResume.PlaceFacts | scripts/ingest_resume.py:76-88 | placing an orphan adds exactly one variant: appended to the first similar cluster, or as a new last cluster named `<slug>_auto_NN` after the new count; it fails only when a new cluster is needed and there is no slug |
| IngestResume.PlaceAllFacts | scripts/ingest_resume.py:76-88 | after all orphans, the variant count grows by the number of orphans, the existing clusters keep their ids and places, at most one cluster is added per orphan, each new one named after its position, and no cluster is empty |
| IngestResume.PlaceAllDefined | scripts/ingest_resume.py:85-88 | with a slug every orphan finds a place |
| IngestResume.FirstHeader | scripts/ingest_resume.py:92-96 | the header is that of the first variant with a truthy header; there is none exactly when no variant has one |
| IngestResume.DedupFacts | scripts/ingest_resume.py:104-108 | the slot's variants have pairwise distinct types, cover every type in the cluster, and are the first variant of each type, in order |
| IngestResume.FormatAll | scripts/ingest_resume.py:91-109 | one slot per cluster, in cluster order |
| IngestResume.ProcessedSlotsFacts | scripts/ingest_resume.py:39-111 | the output holds the manual slots first, in order of first appearance, then at most one slot per orphan named `<slug>_auto_NN` after its position; every slot has at least one variant and distinct variant types |
| IngestResume.ProcessedSlotsDefined | scripts/ingest_resume.py:86 | when the context name holds a word, clustering never raises |
| IngestResume.HeaderOf | scripts/ingest_resume.py:92-96 | the loop finds the first truthy header |
| IngestResume.DistinctVariants | scripts/ingest_resume.py:104-108 | the `seen_types` loop keeps the first variant of each type |
| IngestResume.GroupRows | scripts/ingest_resume.py:45-67 | the row loop builds the manual slots, their insertion order and the orphans as the grouping defines them |
| IngestResume.ManualToClusters | scripts/ingest_resume.py:72-73 | the manual slots become clusters in insertion order |
| IngestResume.FindSimilar | scripts/ingest_resume.py:77-83 | the inner loop stops at the first similar cluster, or finds none |
| IngestResume.PlaceOrphans | scripts/ingest_resume.py:76-88 | the orphan loop places each orphan in turn, and fails where the slug is needed and missing |
| IngestResume.FormatClusters | scripts/ingest_resume.py:91-109 | the output loop formats each cluster |
| IngestResume.ProcessSlots | scripts/ingest_resume.py:39-111 | the three passes compute the slots `process_slots` returns, or report that it raises |
| IngestResume.SkillSlotsDefined | scripts/ingest_resume.py:175-177 | the skills are always built, and with a record-type column they have the slot shape above for the "Skills" rows under the slug "skills" |
| IngestResume.EduOf | scripts/ingest_resume.py:162-171 | an entry's (institution, area) key is the row's (organisation, role), "" where missing |
| IngestResume.EduFacts | scripts/ingest_resume.py:158-172 | the entries have distinct (institution, degree) keys, none with both parts empty, one for every named key of an education row, each the first education row with its key, in row order; none without a record-type column |
| IngestResume.CollectEducation | scripts/ingest_resume.py:158-172 | the loop with its `seen_edu` set yields the education entries defined above |
| IngestResume.SummaryOf | scripts/ingest_resume.py:152-155 | the title defaults to "Product Leader" and the summary to "" |
| IngestResume.SummaryFacts | scripts/ingest_resume.py:144-155 | the summaries have one key per variant type some row names, each taken from the first row naming it; none unless both role columns exist |
| IngestResume.CollectSummaries | scripts/ingest_resume.py:144-155 | the loop yields the summaries defined above |
| IngestResume.ExperienceFilter | scripts/ingest_resume.py:180-181 | only rows of record type "Experience" or without a record type are kept |
| IngestResume.OrgRows | scripts/ingest_resume.py:189 | only rows naming the organisation are kept |
| IngestResume.OrgsFacts | scripts/ingest_resume.py:186-187 | the organisations visited are distinct, are exactly those some experience row names, appear in order of first mention, and each has rows |
| IngestResume.OrgFirstRow | scripts/ingest_resume.py:189-190 | the organisation's first row is the first row that names it |
| IngestResume.WorkHistoryJobs | scripts/ingest_resume.py:186-200 | the history has one job per organisation, in order, with the company name, the role (default "Product Leader"), dates and location of its first row, and its rows clustered under its name |
| IngestResume.WorkHistoryMissing | scripts/ingest_resume.py:186-200 | the history is missing (the source raises) exactly when clustering some organisation's rows raises |
| IngestResume.WorkHistoryDefined | scripts/ingest_resume.py:186-200 | when every organisation name holds a word, the history is built |
| IngestResume.CollectWorkHistory | scripts/ingest_resume.py:179-200 | the experience loop yields the history defined above, or stops where clustering raises |
| IngestResume.GoldenRecordFacts | scripts/ingest_resume.py:126-200 | a record is produced exactly when the spreadsheet has a row and the history can be built; its parts are the summaries, history, education and skills above, and each of the six contact fields (name, location, email, phone, LinkedIn, portfolio) is the first row's cell, or "nan" where it is missing |
| IngestResume.RunIngestion | scripts/ingest_resume.py:113-204 | the whole pass computes the record defined above |
| BuildResume.FirstMatch | build_resume.py:15-17 | the content of the first variant of the target type; none exactly when no variant has that type |
| BuildResume.GetVariantContentFacts | build_resume.py:13-23 | an exact match wins; otherwise, unless the target is the master type, the first master variant; nothing exactly when no variant has the target or the master type |
| BuildResume.FallbackGuardRedundant | build_resume.py:19-22 | the `target_role != MASTER_VARIANT` guard does not change the answer |
| BuildResume.DistinctTypesLookup | build_resume.py:15-17 | on a slot whose variant types are distinct, as the ingestion makes them, the variant of the target type is the one selected |
| BuildResume.Filter | build_resume.py:47 | every kept item is an input item the test accepts, and every accepted input item is kept; order and multiplicity are stated by `FilterOrder` |
| BuildResume.FilterOrder | build_resume.py:47 | one kept item per accepted input item, and the accepted item at position k is kept at the position given by the number of accepted items before k, so the input order is kept |
| BuildResume.FilterAll | build_resume.py:47 | a filter that accepts every item keeps the list as it is |
| BuildResume.FilterNone | build_resume.py:47 | a filter that accepts no item keeps nothing |
| BuildResume.JoinFive | build_resume.py:47 | five items joined with a separator are the items with the separator between each pair |
| BuildResume.ContactLineFacts | build_resume.py:39-48 | the contact line is the shown contacts (neither empty nor "nan") joined by " \| ": one entry per shown contact, in the fixed order location, email, phone, LinkedIn, portfolio; it is all five joined when all are shown, and empty when none is |
| BuildResume.SummaryFallback | build_resume.py:53-60 | the summary section is the target's title and summary, else the master's, and is omitted exactly when neither exists |
| BuildResume.YieldedEmpty | build_resume.py:66-69 | a job yields no bullet exactly when no slot's selected content is truthy |
| BuildResume.BulletedEmpty | build_resume.py:69 | the bullet lines are empty exactly when there is no content |
| BuildResume.JobSectionIff | build_resume.py:64-74 | a job's section is written exactly when one of its slots yields content, and is then the heading, one `- content` line per yielding slot in slot order, and a blank line |
| BuildResume.ExperienceAppend | build_resume.py:64-74 | each job adds its own section after the earlier ones |
| BuildResume.EduDetailsFacts | build_resume.py:81-82 | the details line holds the non-empty degree and location in that order, joined by " \| " |
| BuildResume.SkillEntryFacts | build_resume.py:87-92 | a skill slot without content is skipped; one with content is written with its bold header when it has a truthy one |
| BuildResume.ResumeSections | build_resume.py:77-86 | the education and skills headings are omitted exactly when those lists are empty |
| BuildResume.JobContent | build_resume.py:65-69 | the inner loop builds the job's bullet lines |
| BuildResume.WriteJob | build_resume.py:65-74 | one job's heading and bullets, or nothing |
| BuildResume.AppendExperience | build_resume.py:63-74 | the experience loop appends each job's section in order |
| BuildResume.AppendEducation | build_resume.py:77-82 | the education loop appends the education section |
| BuildResume.AppendSkills | build_resume.py:85-92 | the skills loop appends the skills section |
| BuildResume.Build | build_resume.py:25-92 | the Markdown written is the header, summary, experience, education and skills sections in that order |
| LayoutEngine.ViewDefaults | layout_engine.py:31-44 | missing fields default to eyebrow 'SUGARTOWN', link '#', and '' for subtitle, body, citation and icon URL; the title is taken as it is |
| LayoutEngine.BgStyleIffImage | layout_engine.py:15-17 | the background style attribute is non-empty iff `bg_image` is truthy, and then it contains the image URL |
| LayoutEngine.TagsHtmlIffTags | layout_engine.py:20-23 | the tags div is present iff the tag list is non-empty, and it then holds one span per tag, in order, joined by a space |
| LayoutEngine.GridParts | layout_engine.py:11-49 | the parts are the wrapper opening, one fragment per card in input order, and the closing `</div>` |
| LayoutEngine.GridShape | layout_engine.py:11-50 | the output starts with the wrapper line, ends with `</div>`, and is exactly those two lines for no cards |
| LayoutEngine.GeneratePinkCardGrid | layout_engine.py:1-50 | the loop's output is the newline-join of `GridParts` |

## Left out

- HTTP transport through `requests`, and the Basic auth header (section 2 of RFC 7617), are not modelled. Their replies are inputs, and the requests are recorded as values.
- md5 (RFC 1321) and `json.dumps(sort_keys=True)` are an abstract deterministic function parameter, so no property of the digest itself is modelled.
- `html.unescape` decodes only the fixed table of character references in `Common.CharRef`; any other `&` is kept as it is. The full HTML5 entity table is too large to model.
- Python's `str.lower()`, `\s`, `\w` and `\d` are modelled on ASCII only: white space is the ASCII set that `str.isspace()` accepts (including 0x1C to 0x1F), and non-ASCII white space, letters, digits and case mapping are left out.
- Clocks (`datetime.now`, `time.ctime`, file modification times) are parameters, and console output (`print`) is left out.
- The governance check at publish_gem.py:108-115 is left out. It reads `content_store.projects`, which content_store.py does not define, so as written the script raises `AttributeError` right after loading the state, before any cache is built or any gem is written. The model, `PublishGem.RunPublisher` included, describes the run with lines 108-115 removed.
- The exception branch around the layout engine call (publish_gem.py:155-162) is left out; the model always takes the normal path.
- `fetch_github_markdown` and `publish_to_wordpress` in publish_ethics_page.py are left out; they are HTTP only.
- content_store.py (data without logic), export_gems.py, get_categories.py, prep_resume.py, scripts/publish_resume.py, publish_cms_table.py and the visualisation scripts are not part of this model. They are transport wrappers, hard-coded copies or floating-point rendering.
- Pandas CSV reading, the JSON dump of the golden record, `sys.exit` and `argparse` are left out. The spreadsheet is a sequence of rows with optional cells.
- `str()` of a non-string spreadsheet cell is not modelled; every cell is a string or missing.
- LastGoodEngine.Step: a failed write of the change or error log, which `log_change` and `log_error` catch and only report (backups/publish_gem.last_good.py:52-56, 61-65), is not modelled; every log entry is appended.
- LastGoodEngine.Step: a 200/201 body that is not JSON is not told apart from one without `link`. Both end the run before any log entry or state change (line 172 or line 176 of backups/publish_gem.last_good.py raises), so the model gives both the same outcome.
- PublishGem.Step: a 200/201 reply whose body has no `id`, where publish_gem.py:201 raises `KeyError`, is not modelled; every answer carries an id.
- PublishGem.StepIdempotent: idempotence is proved for one record at a time (a repeated identical step is a skip, once its terms are cached); a whole second run is not proved to skip everything, since a later record with the same normalised title can change the gem index for an earlier one.
- File writes and copies are map updates, so their atomicity and partial writes are not modelled; a failed copy is an input flag.
- EthicsPage.ConvertMarkdownToHtml: a metadata buffer still open at the end of the document is dropped, because the source never flushes it there. The model does the same and proves no property about those lines.
- MergeContent.ReplaceThenGet: the round trip is proved for the triple-double-quoted body only, and it also requires the new body not to end with a double quote. With a trailing `"`, the lazy `"""(.*?)"""` search stops one character early.
- IngestResume.ProcessedSlotsFacts: the slot count is stated as bounds (between the number of manual slot ids and that number plus the orphans). The exact count, one new slot for each orphan that matches nothing, is stated per orphan in IngestResume.PlaceFacts.
