# Conversation memory: importer and queries

This project models the two Python scripts of a small "conversation memory"
tool and proves properties of the model.

- `import_conversations.py` creates an SQLite database with three tables:
  `conversations`, `messages` and `memories`.
- It then imports a Claude export and a ChatGPT export. Each export is a
  decoded JSON list of conversations.
- Every kept message becomes a `messages` row and a `memories` row. Both are
  written with `INSERT OR REPLACE`.
- `query_memories.py` searches the memories with `LIKE '%query%'`, newest
  first, up to a limit, and builds a snippet for each hit.
- It also computes per-source statistics and lists the ten most recent
  conversations.

Files:

- `python.dfy`: the part of Python the importer relies on.
  - Decoded JSON values and truthiness.
  - `dict.get` and `d[key]`, iteration and `.items()`.
  - `str()`, `strip`, `join` and `replace`.
  - `Collect`, a `for` loop whose first exception ends it.
- `schema.dfy`: the tables, the `INSERT OR REPLACE` writes, and the
  `Database` class. The class holds the live tables and, separately, what was
  last committed.
- `claude.dfy` and `claude_props.dfy`: the Claude adapter, as methods with
  loops proved against pure write functions, and its properties.
- `chatgpt.dfy` and `chatgpt_props.dfy`: the same for the ChatGPT adapter.
- `importer.dfy`: `main`, which runs Claude first, then ChatGPT, then closes.
- `like.dfy`: SQLite's `LIKE`.
- `ranking.dfy`: `ORDER BY … DESC LIMIT n`, specified up to the order of
  rows with equal keys.
- `query.dfy`: `search_memories`.
- `stats.dfy`: `get_conversation_stats`.

How the import is modelled:

- Each adapter's effect is a pure function from the export to a
  `Result<seq<Write>>`.
- The methods that walk the export are proved to leave the live tables equal
  to those writes applied to the old tables.
- Commits are tracked as well. On an exception nothing of the current file is
  committed, because `conn.commit()` only runs at the end of an adapter and
  `main` closes the connection in `finally` without committing.

How SQLite is modelled:

- A `TEXT PRIMARY KEY` admits NULL, and NULL never equals another key. Rows
  whose id is NULL are therefore kept apart and only ever appended.
- A table scan's order is not fixed, so the queries take it as a parameter
  `scan`. Their results are specified by `TopRows`: as many rows as the limit
  allows, all drawn from the matching rows, newest first, and no row left out
  is newer than a row returned.

## Model

| member | source | states |
|---|---|---|
| Schema.BindText | import_conversations.py:77-84 | a bound value is stored as NULL exactly when it is `None`, a string is stored as itself, and binding raises exactly for a list, a dict or an int outside the signed 64-bit range |
| Schema.CreateTablesIfNotExists | import_conversations.py:14-56 | each of the three tables the file already holds keeps all its rows, and each one it lacks is created empty |
| Schema.NewFileEmpty | import_conversations.py:14-56 | a new file ends up with three empty tables |
| Schema.ExistingTablesKept | import_conversations.py:20-53 | a file that holds all three tables keeps them exactly as they were |
| Schema.CreateTablesIdempotent | import_conversations.py:20-53 | running the schema setup again changes nothing |
| Schema.CreateStatementsCommute | import_conversations.py:20-53 | the three `CREATE TABLE IF NOT EXISTS` statements give the same result in any order |
| Schema.ApplyIsOverlay | import_conversations.py:77-80 | a batch of upserts lays the rows it writes over any database; a write replaces only the row with its own id |
| Schema.OverlayWrite | import_conversations.py:111-128 | one upsert on top of an overlay lands in the overlaid tables |
| Schema.BatchFootprint | import_conversations.py:77-128 | the rows a batch writes sit exactly under the ids it names; a NULL id appends a row instead |
| Schema.BatchFrame | import_conversations.py:77-128 | rows whose id no write names are unchanged, and each table's key set grows by exactly the ids written |
| Schema.BatchIdempotent | import_conversations.py:149-202 | repeating a batch whose ids are all text leaves the tables as the first run left them |
| Schema.ApplyConcat | import_conversations.py:67-128 | running two batches one after the other equals running their concatenation |
| Schema.FlattenAt | import_conversations.py:110-128 | kept messages are written as a message row at position 2a, then its memory row at 2a+1 |
| Schema.FlattenIds | import_conversations.py:110-128 | the writes of kept messages name no conversation, and exactly the message and memory ids of those messages |
| Schema.FlattenKinds | import_conversations.py:110-128 | kept messages write only message and memory rows |
| Schema.FlattenStamped | import_conversations.py:110-128 | kept messages stamped with one timestamp write only rows with that `created_at` |
| Schema.FlattenKeyed | import_conversations.py:182-202 | kept messages whose ids are all text write only keyed rows |
| Schema.WrittenMessagesName | import_conversations.py:110-115 | after a batch, the row under each message id it writes is one it wrote, so if every message row of the batch names one of a set of conversations, so does each of those stored rows |
| Schema.Database.Create | import_conversations.py:14-56 | `create_database` leaves live and committed tables equal to the schema setup's result |
| Schema.Database.PutConversation | import_conversations.py:77-84 | upserts one conversation row into the live tables and leaves the committed state alone |
| Schema.Database.PutMessage | import_conversations.py:111-115 | upserts one message row, with nothing committed |
| Schema.Database.PutMemory | import_conversations.py:119-128 | upserts one memory row, with nothing committed |
| Schema.Database.PutPair | import_conversations.py:110-128 | writes a message row and then its memory row |
| Schema.Database.Commit | import_conversations.py:130 | `conn.commit()`: the committed state becomes the live tables |
| Python.Iterate | import_conversations.py:67 | `for x in v` raises unless `v` is a list, string or dict, and visits one item per element |
| Python.CollectNext | import_conversations.py:67-128 | one more loop iteration appends what that iteration yields, or raises |
| Python.CollectRaisedPersists | import_conversations.py:67-128 | once an iteration raises, the whole loop raises |
| Python.CollectAll | import_conversations.py:87-107 | what holds of every iteration's output holds of the loop's output |
| Python.CollectSingletons | import_conversations.py:110-128 | a loop whose iterations each yield one item yields one item per element, in order |
| Python.NatToStringInjective | import_conversations.py:161 | distinct indices print differently |
| Python.StripEmptyIffBlank | import_conversations.py:96 | `s.strip()` is empty exactly when every character is whitespace |
| Python.JoinValues | import_conversations.py:95 | `'\n'.join` raises exactly when some part is not a string |
| Python.JoinBlank | import_conversations.py:95 | a newline join is blank exactly when every part is blank |
| Python.ReplaceZ | import_conversations.py:145-146 | no 'Z' survives `.replace('Z', '+00:00')`, and the text never gets shorter |
| Python.ReplaceZUnchangedIff | import_conversations.py:145-146 | the replacement changes the timestamp exactly when it holds a 'Z' |
| ClaudeImport.ConversationHeader | import_conversations.py:67-84 | skips an entry with a missing or falsy `mapping`, else builds its conversation row with its title and timestamps; specified by `ClaudeProperties.SkippedIffNoMapping` and `ClaudeProperties.OneConversationRow` |
| ClaudeImport.ClaudeNode | import_conversations.py:88-107 | the message one `mapping` node contributes, if any; specified by `ClaudeProperties.NodeKeptIff` |
| ClaudeImport.PairOf | import_conversations.py:110-128 | the message row and memory row written for one extracted message; specified by `ClaudeProperties.PairRows` |
| ClaudeImport.ConversationWrites | import_conversations.py:67-128 | all writes of one export entry in execution order; specified by `ClaudeProperties.OnePairPerMessage` and `ClaudeProperties.EntryIds` |
| ClaudeImport.FileWrites | import_conversations.py:63-130 | the writes of a whole export, or Raised when an entry raises; specified by `ClaudeProperties.FileIdsIgnoreGeneratedIds` and `ClaudeProperties.ReimportAddsConversations` |
| ClaudeImport.ExtractMessages | import_conversations.py:87-107 | the loop over `mapping.items()` raises exactly when the specification does, and otherwise returns the messages the specification extracts |
| ClaudeImport.InsertMessages | import_conversations.py:109-128 | the insert loop writes each message's pair of rows in order, or raises, and commits nothing |
| ClaudeImport.ImportConversation | import_conversations.py:67-128 | one entry's import applies exactly that entry's writes, or raises |
| ClaudeImport.ImportFile | import_conversations.py:58-131 | the live tables receive every entry's writes in order and are then committed; on an exception the committed tables stay as they were |
| ClaudeProperties.SkippedIffNoMapping | import_conversations.py:67-69 | an entry writes nothing exactly when its `mapping` is missing or falsy |
| ClaudeProperties.OneConversationRow | import_conversations.py:71-84 | any other entry writes exactly one conversation row first, under the generated id, with source `claude`, the title defaulting to `Untitled`, and `created_at`/`updated_at` from `fromtimestamp` of `create_time`/`update_time` (0 when absent); everything after it is message or memory rows, and every row the entry writes carries the conversation's `created_at` |
| ClaudeProperties.PairsStamped | import_conversations.py:101-123 | every message and memory row of an entry carries the conversation's `created_at` |
| ClaudeProperties.NodeKeptIff | import_conversations.py:88-107 | a node yields a message exactly when all five conditions hold; the message has `message['id']`, the author's role (default `unknown`) and the joined parts |
| ClaudeProperties.UsableIndicesExactly | import_conversations.py:88-96 | the usable positions are listed each once, in increasing order, and a position is listed exactly when its node passes all five conditions |
| ClaudeProperties.ExtractedExactly | import_conversations.py:87-107 | the extracted messages are exactly those of the usable nodes, in mapping order: the `a`-th message is the one built from the `a`-th usable node |
| ClaudeProperties.PairRows | import_conversations.py:110-128 | a message row under the message's own id in this conversation, and a memory row `claude_{id}` with the same content and timestamp and metadata naming the conversation, title and role |
| ClaudeProperties.OnePairPerMessage | import_conversations.py:87-128 | one pair of rows per extracted message, so an entry writes 1 + 2 × (usable nodes) rows |
| ClaudeProperties.EntryIds | import_conversations.py:71-128 | an imported entry names the generated conversation id and the message and memory ids of its pairs |
| ClaudeProperties.PairsIgnoreConversation | import_conversations.py:110-128 | the same messages written into two conversations raise alike and name the same ids |
| ClaudeProperties.EntryIdsIgnoreGeneratedIds | import_conversations.py:71 | the generated id changes only the conversation id an entry writes |
| ClaudeProperties.FileIdsIgnoreGeneratedIds | import_conversations.py:67-128 | over a whole export, the generated ids change only which conversation ids are written |
| ClaudeProperties.PairsName | import_conversations.py:110-115 | every message row of an entry names the entry's generated conversation id |
| ClaudeProperties.EntryMessagesName | import_conversations.py:71-115 | the message rows an entry writes name its generated conversation id |
| ClaudeProperties.FileMessagesName | import_conversations.py:67-115 | the message rows of a whole export name conversation ids generated for entries with a mapping |
| ClaudeProperties.ReimportedMessagesName | import_conversations.py:67-115 | over any tables, after an import the row under each message id it writes names a conversation id of that import |
| ClaudeProperties.ReimportAddsConversations | import_conversations.py:71-128 | importing the same export again adds a conversation row under each newly generated id of an entry with a mapping, the message and memory key sets stay as the first import left them, and each message row of the export now names a conversation of the second import, so the first import's conversation rows lose their messages |
| ChatGPTImport.ParseTimestamp | import_conversations.py:145-146 | `fromisoformat` of the field's string (or `''`) after replacing 'Z'; raises when the field is not a string; specified by `ChatGPTProperties.HeaderSpec` |
| ChatGPTImport.ConversationHeader | import_conversations.py:142-159 | the conversation row of an entry and its id, title and timestamps; specified by `ChatGPTProperties.HeaderSpec` |
| ChatGPTImport.MessageBody | import_conversations.py:163 | `message`, or `content` when `message` is missing or falsy; specified by `ChatGPTProperties.MessageBodyFallback` |
| ChatGPTImport.NormalizeContent | import_conversations.py:165-179 | the text a dict, list or other content becomes; specified by `ChatGPTProperties.PartsJoined`, `ChatGPTProperties.ListJoined` and `ChatGPTProperties.ContentCases` |
| ChatGPTImport.ChatMessage | import_conversations.py:160-202 | the pair of rows one `chat_messages` entry writes, if any; specified by `ChatGPTProperties.ChatMessageSpec` |
| ChatGPTImport.ConversationWrites | import_conversations.py:142-202 | all writes of one export entry in execution order; specified by `ChatGPTProperties.ConversationIdsOf` and `ChatGPTProperties.ConversationFrame` |
| ChatGPTImport.FileWrites | import_conversations.py:138-204 | the writes of a whole export, or Raised when an entry raises; specified by `ChatGPTProperties.ReimportUnchanged` and `ChatGPTProperties.MissingCreatedAtAborts` |
| ChatGPTImport.MessageStepAtMostOne | import_conversations.py:160-202 | each `chat_messages` entry yields at most one pair |
| ChatGPTImport.ImportMessages | import_conversations.py:159-202 | the message loop writes the pairs the specification keeps, in order, or raises, and commits nothing |
| ChatGPTImport.ImportConversation | import_conversations.py:142-202 | one entry's import applies exactly that entry's writes, or raises |
| ChatGPTImport.ImportFile | import_conversations.py:133-205 | every entry's writes, then commit; on an exception the committed tables stay as they were |
| ChatGPTProperties.MessageIdsDistinct | import_conversations.py:160-161 | `{conv_id}_msg_{i}` ids of one conversation never collide |
| ChatGPTProperties.ChatMessageSpec | import_conversations.py:160-202 | an entry is dropped exactly when its text is blank; otherwise it yields a message row `{conv_id}_msg_{i}` and a memory row `chatgpt_{msg_id}` with the same content and timestamp; it raises exactly when the content cannot become text or the role cannot be bound |
| ChatGPTProperties.MessageBodyFallback | import_conversations.py:163 | the body is `message` when truthy, else `content`, else `''`; reading it raises exactly when the entry is not a dict |
| ChatGPTProperties.ContentCases | import_conversations.py:165-179 | non-list `parts` print with `str`; a `text` field is taken as it is and raises at `strip` unless it is a string; any other dict gives `str(dict)`; any other value gives `str(value)`; the text raises exactly for a non-string part of a `parts` list or a non-string `text` |
| ChatGPTProperties.PartsJoined | import_conversations.py:167-168 | `parts` lists are joined with newlines, raise when a part is not a string, and are blank exactly when every part is |
| ChatGPTProperties.ListJoined | import_conversations.py:173-175 | list content is the newline join of `str(item)`, blank exactly when every item prints as whitespace |
| ChatGPTProperties.HeaderSpec | import_conversations.py:142-156 | source `chatgpt`, the id from `uuid` or else a generated one, the title from `name` or else `Untitled`; `created_at` and `updated_at` are what `fromisoformat` gives for the field's string after replacing 'Z', or for `''` when the field is absent, and a present field must be a string |
| ChatGPTProperties.KeptPairs | import_conversations.py:159-202 | the kept pairs are exactly what the non-blank entries yield, with pairwise distinct message and memory ids |
| ChatGPTProperties.KeptFrom | import_conversations.py:160-192 | each kept pair comes from an entry `i` and carries the ids `{conv_id}_msg_{i}` and `chatgpt_{conv_id}_msg_{i}` |
| ChatGPTProperties.KeptComplete | import_conversations.py:179-202 | every entry that yields a pair has it kept |
| ChatGPTProperties.KeptDistinct | import_conversations.py:160-192 | kept pairs never share a message id or a memory id |
| ChatGPTProperties.ConversationIdsOf | import_conversations.py:143-202 | one entry writes only its own conversation id, `{conv_id}_msg_*` message ids and `chatgpt_{conv_id}_msg_*` memory ids |
| ChatGPTProperties.ConversationFrame | import_conversations.py:149-202 | importing one entry leaves every other conversation, message and memory row unchanged |
| ChatGPTProperties.EntryIgnoresGeneratedIds | import_conversations.py:143 | an entry with its own `uuid` writes the same rows whatever uuid4 returns |
| ChatGPTProperties.EntryKeyed | import_conversations.py:143-202 | such an entry writes only keyed rows |
| ChatGPTProperties.ReimportUnchanged | import_conversations.py:142-202 | re-importing an export whose entries all carry `uuid` writes the same rows and leaves the tables unchanged |
| ChatGPTProperties.HeaderNeedsCreatedAt | import_conversations.py:145 | a missing `created_at` parses `''`, which raises |
| ChatGPTProperties.MissingCreatedAtAborts | import_conversations.py:145 | a missing `created_at` aborts the whole file's import |
| Importer.Step | import_conversations.py:216-228 | one adapter run on the committed tables: a missing file is skipped, an exception leaves them as they were; specified by `Importer.ImportOne` |
| Importer.Run | import_conversations.py:207-246 | Claude first, then ChatGPT only if Claude completed, over the schema setup's result; specified by `Importer.ImportAll`, `Importer.ClaudeFailureStops` and `Importer.ChatGPTWritesLast` |
| Importer.ImportOne | import_conversations.py:215-228 | a missing file is skipped; an unparsable one or one whose import raises leaves the committed tables as they were; otherwise its writes are committed |
| Importer.ImportAll | import_conversations.py:207-246 | what the file holds after `main` is Claude's writes, then (only if Claude completed) ChatGPT's, over the schema setup's result |
| Importer.NothingToImport | import_conversations.py:213-228 | with neither export present, `main` leaves what `create_database` made |
| Importer.ClaudeFailureStops | import_conversations.py:215-246 | when the Claude import raises, ChatGPT is never imported and nothing new is committed |
| Importer.ChatGPTWritesLast | import_conversations.py:216-226 | where both imports write the same id, the ChatGPT row is the one stored |
| SqlLike.Like | query_memories.py:20-23 | SQLite's `LIKE` without ESCAPE: `%` any run, `_` any character, ASCII case folded; specified by the lemmas below |
| SqlLike.PercentMatchesAll | query_memories.py:23 | `%` matches any text |
| SqlLike.LeadingPercent | query_memories.py:20-23 | a leading `%` skips some prefix of the text |
| SqlLike.SelfPrefix | query_memories.py:20-23 | a pattern followed by `%` matches any text starting with the pattern's own characters |
| SqlLike.ContainsImpliesMatch | query_memories.py:20-23 | content that holds the query verbatim matches `'%query%'` |
| SqlLike.LiteralPrefix | query_memories.py:20-23 | a query without wildcards followed by `%` matches exactly the texts that start with it, up to ASCII case |
| SqlLike.LiteralMatchIff | query_memories.py:20-23 | for a query without wildcards, `LIKE '%query%'` holds exactly when the query occurs in the content, up to ASCII case |
| Ranking.SelectAll | query_memories.py:17-20 | scanning the table in any order selects each matching row once |
| Ranking.LexLeTotal | query_memories.py:21 | the BINARY collation orders any two strings |
| Ranking.LexLeTrans | query_memories.py:21 | the collation is transitive |
| Ranking.LexLeAntisymmetric | query_memories.py:21 | the collation is antisymmetric |
| Ranking.SortDesc | query_memories.py:21 | sorting keeps exactly the same rows |
| Ranking.SortDescSorted | query_memories.py:21 | sorted rows come newest first |
| Ranking.Take | query_memories.py:22 | `LIMIT` keeps a prefix of length min(n, limit), or all rows when the limit is negative |
| Ranking.TopOfSorted | query_memories.py:17-23 | sorting and then cutting at the limit gives the top rows of the pool |
| Ranking.AllRowsWhenUnderLimit | query_memories.py:22 | when the limit is not reached, every matching row is returned |
| Ranking.LeftOut | query_memories.py:21-22 | a matching row is left out only when the result is full of rows at least as new |
| Ranking.TopRowsKeysDetermined | query_memories.py:21-22 | any two valid results have the same length and the same keys position by position |
| Query.Search | query_memories.py:11-23 | the SELECT of `search_memories`, with `limit` defaulting to 10; specified by `Query.SearchIsTop` and the lemmas below |
| Query.SearchIsTop | query_memories.py:17-23 | the search returns the top `limit` matching memories, newest first |
| Query.DefaultSearchShowsTen | query_memories.py:11-23 | without a limit the search returns the ten newest matching memories, or all of them when fewer match |
| Query.SearchRowsMatch | query_memories.py:17-20 | every row returned is a stored memory, as stored, whose content matches `'%query%'` |
| Query.LiteralRowsContainQuery | query_memories.py:20-23 | with a query free of `%` and `_`, every row's content holds the query up to ASCII case |
| Query.SearchFindsContaining | query_memories.py:20-23 | a memory whose content contains the query is returned unless `limit` memories at least as new are |
| Query.SearchEmptyIff | query_memories.py:20-23 | the search is empty exactly when the limit is 0 or no memory matches |
| Query.SearchDeterminedUpToTies | query_memories.py:21-22 | scanning the table in another order changes only the order of rows with equal `created_at` |
| Query.Truncate | query_memories.py:36 | the snippet `content[:200]` plus `...` when cut; specified by `Query.TruncateKeepsPrefix` |
| Query.TruncateKeepsPrefix | query_memories.py:36 | the snippet starts with up to 200 characters of the content, is unchanged when the content is no longer than that, is at most 203 long, and ends in `...` exactly when the content was longer |
| Query.Show | query_memories.py:31-36 | what is shown of one row; specified by `Query.ShowRaisesIff`, `Query.ShowDefaults`, `Query.ShowWithoutMetadata` and `Query.ShowImported` |
| Query.ShowRaisesIff | query_memories.py:31-34 | a row fails to show exactly when its metadata is not a JSON object |
| Query.ShowDefaults | query_memories.py:31-35 | JSON-object metadata shows its title and role, with `Untitled` and `unknown` for missing keys |
| Query.ShowWithoutMetadata | query_memories.py:31-34 | NULL metadata shows as `Untitled` with role `unknown` |
| Query.ShowImported | query_memories.py:31-36 | a memory written by either importer shows the title and role recorded for it |
| Stats.ConversationsBySource | query_memories.py:45 | the conversation count per source; specified by `Stats.ConversationGroups` |
| Stats.CountSourcePositive | query_memories.py:45 | a source that occurs is counted at least once |
| Stats.ConversationGroups | query_memories.py:45 | a source has a group exactly when a conversation carries it, and every group counts at least 1 |
| Stats.MessagesBySource | query_memories.py:49-54 | the `LEFT JOIN` message count per conversation source; specified by `Stats.MessageCounts` |
| Stats.MessageCounts | query_memories.py:49-54 | every source with a conversation has a message group, possibly 0, counting exactly the messages of that source's conversations |
| Stats.ProjectionSize | query_memories.py:49-54 | the join yields one row per message |
| Stats.MessagesOfBounded | query_memories.py:49-54 | a message counts for at most one source, and no source counts more messages than are stored |
| Stats.MemoriesBySource | query_memories.py:58 | the memory count per source; specified by `Stats.MemoryGroups` |
| Stats.MemoryGroups | query_memories.py:58 | every source with a memory has a group of at least 1 |
| Stats.Recent | query_memories.py:62-68 | the ten most recent conversations; specified by `Stats.RecentIsTop` |
| Stats.RecentIsTop | query_memories.py:62-68 | the ten newest conversations, newest first, keyed or not; fewer only when there are fewer |
| Stats.ShowTitle | query_memories.py:88 | `title[:60]` plus `...` when cut; specified by `Stats.ShowTitleSpec` |
| Stats.ShowTitleSpec | query_memories.py:88 | a NULL title raises; otherwise the title is cut to 60 characters and marked with `...` exactly when it was longer |

## Left out

- File and JSON I/O (`open`, `json.load`, `os.path.exists`, the hard-coded paths): the adapters take the decoded JSON value. An export that is missing or fails to parse is an input case of `Importer.ExportFile`.
- Duplicate keys in a JSON object: `Lookup` returns the first member. The behaviour `json.load` gives for duplicate keys is not modelled.
- Floating-point numbers in JSON are not modelled; numbers are integers.
- `datetime.fromtimestamp`, `datetime.fromisoformat` and `repr` of lists and dicts are opaque, possibly failing fields of `Python.Runtime`. Only the 'Z' replacement before parsing is modelled.
- `json.dumps` of metadata: metadata is kept as the decoded value. For memories, `json.loads(json.dumps(x)) == x` is assumed, and the empty string as stored metadata (shown as `{}`) cannot occur.
- `uuid.uuid4()` becomes an injected function from the entry's index to a string.
- Printing: progress lines, the import summary's `SELECT COUNT(*)` queries, `.upper()` of the source, `{count:,}` formatting, and the query script's `main` with `sys.argv`.
- SQLite connections, cursors and transactions beyond commit and close. The unenforced `FOREIGN KEY` is not modelled.
- `LIKE` folds case only for ASCII letters, as SQLite does without ICU; other case folding is not modelled.
- The order of rows with equal `created_at` is unspecified in SQL. It is a parameter (`scan`), and the results are stated up to that order.
- The `source` of a memory is never NULL in the model, as the importers always set it, so `source.upper()` cannot fail here.
- Stats: the NULL `title` stored for a Claude entry whose `title` is JSON null, or a ChatGPT entry whose `name` is JSON null, makes `title[:60]` raise in the statistics. This is modelled as `Raised` in `Stats.ShowTitle`.
- Rows that another program put into an existing database file are representable only when shaped like the importers' rows. A NULL or non-text `created_at`, a NULL conversation or memory `source`, or a NULL memory id cannot be expressed. SQLite would sort a NULL `created_at` last under `DESC` and group NULL sources together; neither case is modelled.
- SQLite rejects a `LIKE` pattern longer than `SQLITE_MAX_LIKE_PATTERN_LENGTH` (50000 bytes by default) with "LIKE or GLOB pattern too complex". `SqlLike.Like` has no length limit, so the model returns rows where a very long query would make `search_memories` raise.
