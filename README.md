# Codex watchdog event batching, search aliases and browser ordering

A Dafny model of three pieces of the Codex comic-library server.

- **Event filtering and batching** (`codex/librarian/watchdog/eventsd.py`).
  - One `CodexLibraryEventHandler` is attached to each watched library. Its `dispatch` drops directory creations and events on files that are not comics (names ending in `.cbr` or `.cbz`). It turns a rename from a non-comic name into a comic name into the creation of the new comic, and forwards everything else tagged with the library's primary key.
  - The single `EventBatcher` folds these messages into a per-library set of events (`_aggregate_items`).
  - On a flush the batcher turns each library's set into one `DBDiffTask` with seven collections: directory and file moves as source→destination maps, and sets of file modifications, file creations, directory deletions, directory modifications and file deletions (`_create_task_from_events`). It puts each task on the librarian queue, then clears the flushed libraries from the cache (`_send_all_items`).
- **Search field aliases** (`gen_multipart_field_aliases` in `codex/search/backend.py`): the other names a snake_case search field is known by.
- **Browser ordering** (`get_order_by` and `get_aggregate_func` in `codex/views/browser_metadata_base.py`).
  - `get_order_by` builds the list of fields the browser orders rows by.
  - `get_aggregate_func` builds the expression annotated as each row's `order_value`.
  - Both use the tables `_ORDER_AGGREGATE_FUNCS` and `_ORDER_BY_FIELD_ALIASES`.

Files:

- `wrappers.dfy`: `Option` and a `Result` whose error is Python's `KeyError` or `IndexError`.
- `comic_name.dfy`: `COMIC_MATCHER` (`\.cb[rz]$`) as a leftmost `re.search` scan. It is proved equal to a suffix test. As in Python, `$` also matches just before one final newline.
- `watch_events.dfy`: watchdog's events and `dispatch`, as a function from an event to the message it enqueues, or `None`.
- `event_batcher.dfy`: `DBDiffTask`, `_field_by_event`, and the `EventBatcher` class.
  - The class's `cache` field is the `self.cache` dictionary. Its `librarianQueue` field is the sequence of tasks put on `LIBRARIAN_QUEUE`.
  - Python iterates sets and dictionaries in an order this model does not fix. So the task built from a set of events is specified relationally: `IsTaskFor` says which tasks `_create_task_from_events` may return. `IsFlushOf` says which sequences of tasks a flush may send.
  - `TaskDetermined` proves that the task is unique whenever no path has two different pending moves. `FlushesAgree` proves that, under the same condition for every cached library, two flushes of one cache send the same tasks, each once, in possibly different orders. It combines `FlushSize`, `FlushBuilt`, `FlushCovers` and `TaskDetermined`.
- `search_aliases.dfy`: Python's `str.split` and `str.join`, and `gen_multipart_field_aliases` with its loop over the two connectors. The result is proved equal to reference definitions: the field with its underscores removed, and with its underscores replaced by hyphens.
- `browser_order.dfy`: the two ordering functions. Django's query expressions are a datatype. The request params (`order_by`, `order_reverse`) and the models' orderings are parameters.

Some definitions carry no contract of their own. Their meaning is stated by the lemmas and functions that use them:

- `WatchEvents.FileCreated` (`FileCreatedEvent`) and `BrowserOrder.Prefixed` (the list comprehension at browser_metadata_base.py:238) are representation helpers. Their facts are stated by `WatchEvents.Dispatch`, `BrowserOrder.GetOrderBy` and `BrowserOrder.PrefixedMember`.
- `ComicName.IsComicName` (`COMIC_MATCHER.search(path) is not None`) is stated by `ComicName.IsComicNameIffSuffix`.
- `BrowserOrder.Truthy` is Python's truthiness of `autoquery_pk` (`not autoquery_pk`, browser_metadata_base.py:149).
- The tables `_ORDER_AGGREGATE_FUNCS` and `_ORDER_BY_FIELD_ALIASES` (browser_metadata_base.py:30-42) are the constants `BrowserOrder.OrderAggregateFuncs` and `BrowserOrder.OrderByFieldAliases`, copied entry by entry.

Two behaviours one might expect of the batcher do not hold in the code, and the model follows the code:

- **A path can be in several collections.** One might expect each path to land in at most one of a task's collections per flush. The code adds each event's path to its own collection. A file created and then modified before a flush therefore appears in both `files_created` and `files_modified` (`EventBatching.SamePathInTwoCollections`).
- **No errors are caught.** One might expect a field-mapping failure to be logged and skipped, and a failed push to keep that library's cache entry for a retry. The code catches nothing.
  - A directory-creation event in the cache would raise `KeyError`. The cache invariant `CacheOk` guarantees there is none.
  - `_send_all_items` clears every library it iterated. Queue failures are not modelled.

## Model

| member | source | states |
|---|---|---|
| ComicName.SearchFrom | codex/librarian/watchdog/eventsd.py:17-18 | `re.search` from position i: a found index is a match (".cb", then r or z, then the end or a final newline), and no match lies before it; None means no position from i on matches |
| ComicName.Search | codex/librarian/watchdog/eventsd.py:17-18 | `COMIC_MATCHER.search(path)`: the leftmost match position, or None exactly when there is no match anywhere |
| ComicName.IsComicNameIffSuffix | codex/librarian/watchdog/eventsd.py:17-18 | the pattern matches a name exactly when it ends in ".cbr" or ".cbz", optionally followed by one newline (both directions) |
| ComicName.ComicNameExamples | codex/librarian/watchdog/eventsd.py:17-18 | "x.cbr", "b.cbz" and "b.cbz\n" match; "a.txt", "a.CBZ" (the match is case-sensitive) and "a.cbz.txt" do not |
| WatchEvents.Dispatch | codex/librarian/watchdog/eventsd.py:95-120 | a forwarded message carries the handler's library key; it is never a directory creation; a forwarded file event has a comic name as its source; the forwarded event is the input, or the creation at a move's destination |
| WatchEvents.DispatchDirectoryEvents | codex/librarian/watchdog/eventsd.py:97-100 | a directory creation is dropped; any other directory event is forwarded unchanged, whatever its name |
| WatchEvents.DispatchReclassifiesMoveIntoComic | codex/librarian/watchdog/eventsd.py:102-109 | a file moved from a non-comic name to a comic name is forwarded as the creation of the destination |
| WatchEvents.DispatchKeepsMoveOutOfComic | codex/librarian/watchdog/eventsd.py:110-114 | a comic renamed to a non-comic name is forwarded as the same move, not as a deletion |
| WatchEvents.DispatchDropsNonComicFiles | codex/librarian/watchdog/eventsd.py:102-118 | a file event is dropped exactly when its source is not a comic name and it is not a move into a comic name (both directions) |
| WatchEvents.DispatchExamples | codex/librarian/watchdog/eventsd.py:95-120 | "a.txt"→"b.cbz" becomes the creation of "b.cbz"; a modified "notes.txt" and a created directory "dir.cbz" are dropped; "c.cbr"→"c.txt" stays a move |
| EventBatching.FieldByEvent | codex/librarian/watchdog/eventsd.py:28-35 | `_field_by_event`: "dirs_" for a directory event and "files_" for a file event; the name is "dirs_created" exactly for a directory creation |
| EventBatching.KindNameInjective | codex/librarian/watchdog/eventsd.py:35 | distinct event kinds have distinct `event_type` names (both directions) |
| EventBatching.FieldByEventInjective | codex/librarian/watchdog/eventsd.py:28-35 | two events get the same field name exactly when they agree on the directory flag and the kind (both directions) |
| EventBatching.FieldByEventDirNames | codex/librarian/watchdog/eventsd.py:28-35 | "dirs_moved", "dirs_deleted", "dirs_modified" and "dirs_created" are each chosen by exactly one kind of directory event |
| EventBatching.FieldByEventFileNames | codex/librarian/watchdog/eventsd.py:28-35 | "files_moved", "files_modified", "files_created" and "files_deleted" are each chosen by exactly one kind of file event |
| EventBatching.FieldByEventIsTaskField | codex/librarian/watchdog/eventsd.py:28-59 | an event's field name is one of the task's seven keyword arguments exactly when the event is not a directory creation |
| EventBatching.SourcesAdd | codex/librarian/watchdog/eventsd.py:60-65 | adding one event adds its source path to the collection of its own flag and kind, and to no other |
| EventBatching.MovedMapAdd | codex/librarian/watchdog/eventsd.py:62-63 | `params[field][src] = dest` for a move of that flag keeps the map a valid moves map; any other event leaves the map as it was |
| EventBatching.TaskStep | codex/librarian/watchdog/eventsd.py:60-65 | one loop step: updating the collection named by the event's field keeps the task valid for the events seen so far plus this one; moves update a map, all other kinds update a set |
| EventBatching.Aggregated | codex/librarian/watchdog/eventsd.py:37-46 | the cache after `_aggregate_items`: every library's pending set gains the message's event exactly when it is the message's library and the event is not a directory creation, and nothing else changes; only the message's library can gain a key |
| EventBatching.AggregatedKeepsCacheOk | codex/librarian/watchdog/eventsd.py:37-46 | aggregation keeps every cached set non-empty and free of directory creations |
| EventBatching.AggregatedSpec | codex/librarian/watchdog/eventsd.py:37-46 | a directory creation leaves the cache as it was; any other event is added to its library's set, created if missing; other libraries are untouched |
| EventBatching.AggregatedIdempotent | codex/librarian/watchdog/eventsd.py:44-46 | delivering the same message twice gives the same cache as delivering it once |
| EventBatching.AggregatedCommutes | codex/librarian/watchdog/eventsd.py:44-46 | two messages aggregated in either order give the same cache |
| EventBatching.KeptCons | codex/librarian/watchdog/eventsd.py:41-46 | the events kept from a message sequence are those kept from its head plus those kept from its tail |
| EventBatching.AggregatedAllSpec | codex/librarian/watchdog/eventsd.py:37-46 | after any sequence of messages, each library's pending set is its old set plus exactly the non-directory-creation events sent to it; the cache invariant holds |
| EventBatching.MovedMapDetermined | codex/librarian/watchdog/eventsd.py:60-63 | when no source has two different pending moves, the moves map is the same however the set is iterated |
| EventBatching.TaskDetermined | codex/librarian/watchdog/eventsd.py:48-67 | under the same condition, the task built from a set of events is unique |
| EventBatching.EventBatcher.constructor | codex/librarian/watchdog/eventsd.py:22-26 | a new batcher has an empty cache and has sent nothing |
| EventBatching.EventBatcher.AggregateItems | codex/librarian/watchdog/eventsd.py:37-46 | `_aggregate_items` sets the cache to the aggregated cache of the message, keeps the invariant, and sends nothing |
| EventBatching.EventBatcher.CreateTaskFromEvents | codex/librarian/watchdog/eventsd.py:48-67 | the returned task is for the library; each collection holds exactly the source paths of the events of its flag and kind; each moves map's keys are exactly the moved sources, and each value is the destination of a move of that source |
| EventBatching.FlushStep | codex/librarian/watchdog/eventsd.py:72-75 | sending the task of one more cached library extends a partial flush |
| EventBatching.FlushSize | codex/librarian/watchdog/eventsd.py:71-75 | a partial flush of `ids` covers only cached libraries and sends one task per library |
| EventBatching.FlushBuilt | codex/librarian/watchdog/eventsd.py:72-73 | every sent task is for one of the flushed libraries and is built from that library's pending events alone |
| EventBatching.FlushDistinct | codex/librarian/watchdog/eventsd.py:72-75 | no library gets two tasks in one flush |
| EventBatching.FlushCovers | codex/librarian/watchdog/eventsd.py:72-75 | every flushed library gets a task |
| EventBatching.FlushOneTaskPerLibrary | codex/librarian/watchdog/eventsd.py:69-78 | after a flush, a library has a task exactly when it had pending events, and it has only one |
| EventBatching.FlushesAgree | codex/librarian/watchdog/eventsd.py:69-78 | when no cached library has a path moved to two destinations, two flushes of one cache have the same length and the same tasks: they differ at most in order |
| EventBatching.FlushesAgreeOneWay | codex/librarian/watchdog/eventsd.py:69-78 | every task of one flush of a cache is a task of any other flush of it, under the same condition |
| EventBatching.EventBatcher.SendAllItems | codex/librarian/watchdog/eventsd.py:69-78 | the tasks already on the queue stay as they were; the new tasks are a flush of the old cache (one task per cached library, built from its events); afterwards the cache is empty |
| EventBatching.EventBatcher.CleanupCache | codex/librarian/watchdog/eventsd.py:78 | exactly the given library keys are removed from the cache; the other entries and the queue are unchanged |
| EventBatching.ExampleDispatch | codex/librarian/watchdog/eventsd.py:95-120 | the creation of "x.cbr" and the move of directory "y" to "z" both reach library 42's batcher |
| EventBatching.ExampleAggregation | codex/librarian/watchdog/eventsd.py:37-46 | a duplicated creation collapses: library 42's pending set holds only the creation and the move |
| EventBatching.ExampleTask | codex/librarian/watchdog/eventsd.py:48-67 | the only task built from that set has files_created {"x.cbr"}, dirs_moved {"y": "z"}, and every other collection empty |
| EventBatching.SamePathInTwoCollections | codex/librarian/watchdog/eventsd.py:60-65 | a file created and modified in one flush window is in both files_created and files_modified |
| SearchAliases.Split | codex/search/backend.py:35 | `field.split("_")` returns at least one piece, and no piece contains the separator |
| SearchAliases.Join | codex/search/backend.py:44 | `connector.join(parts)`: "" for no parts; otherwise the result starts with the first part |
| SearchAliases.DropLast | codex/search/backend.py:45 | `s[:-1]`: one character shorter and a prefix of `s`, or "" for "" |
| SearchAliases.JoinSplitRoundTrip | codex/search/backend.py:35-44 | joining the split pieces with the separator gives back the original string |
| SearchAliases.JoinEmptySplit | codex/search/backend.py:35-44 | `"".join(field.split("_"))` is the field with every underscore removed |
| SearchAliases.JoinCharSplit | codex/search/backend.py:35-44 | `"-".join(field.split("_"))` is the field with every underscore replaced by a hyphen |
| SearchAliases.AliasesFromJoins | codex/search/backend.py:33-46 | the singular (for a name ending in "s") followed by each joined form and that minus its last character means: the field without underscores, and with hyphens for underscores |
| SearchAliases.GenMultipartFieldAliases | codex/search/backend.py:33-46 | five aliases for a name ending in "s" (its singular first), four otherwise; then the words run together and that minus its last character, then the words hyphen-joined and that minus its last character |
| BrowserOrder.AggregateField | codex/views/browser_metadata_base.py:147-155 | the field is None (here "") exactly for the default key ("sort_name" or empty); "search_score" becomes "searchresult__score"; every other key is the field itself |
| BrowserOrder.GetAggregateFunc | codex/views/browser_metadata_base.py:145-182 | the no-score constant exactly for "search_score" without a search; the null value exactly for the default key; Comic rows never fail and are never aggregated; only group rows on a field missing from the table raise KeyError; an aggregate reads a column of the group's comics (the file name of `comic__path` for "path"), and records the search pk the source passes as `filters=`; Max only on a reversed order, Min only on an unreversed one |
| BrowserOrder.AggregateFuncComicAndFolder | codex/views/browser_metadata_base.py:161-166 | "path" on Comic and Folder rows orders by the file name; any other field on Comic rows is the plain column |
| BrowserOrder.AggregateFuncGroups | codex/views/browser_metadata_base.py:167-181 | on group rows, a field the table does not list raises KeyError on that field; a listed field gives exactly the table's function (Min turned into Max on a reversed order, and kept otherwise) over `"comic__" + field` (the file name of `comic__path` for "path"), with the search pk passed as `filters=` |
| BrowserOrder.AggregateFuncSearchScore | codex/views/browser_metadata_base.py:148-181 | during a search, "search_score" on any non-Comic rows, Folder included, is Min (Max reversed) of the comics' search-result scores |
| BrowserOrder.OrderPrefixSpec | codex/views/browser_metadata_base.py:205-207 | the prefix starts with "-" exactly on a reversed order, ends in "comic__" in cover-path mode, and is at most one character otherwise |
| BrowserOrder.OrderPrefix | codex/views/browser_metadata_base.py:205-207 | the prefix is one character for a reversed order plus seven ("comic__") in cover-path mode |
| BrowserOrder.BaseOrderFields | codex/views/browser_metadata_base.py:209-231 | the choice of `order_fields` is empty only when the ordering it copies is empty (Comic's in cover-path mode, a group model's otherwise); outside cover-path mode it is the Comic default, the model's ordering, or `["order_value"]` |
| BrowserOrder.GetOrderBy | codex/views/browser_metadata_base.py:198-239 | IndexError exactly when the base ordering is empty; otherwise the list is the base fields in order, each behind the prefix, with "pk" appended only when the base does not already end with it, so the list always ends with the prefixed "pk" |
| BrowserOrder.OrderByDefaultsToSortName | codex/views/browser_metadata_base.py:210 | a missing `order_by` param behaves as "sort_name" |
| BrowserOrder.OrderByNonDefaultKey | codex/views/browser_metadata_base.py:229-234 | outside cover-path mode a non-default key orders by `order_value` and then "pk" |
| BrowserOrder.OrderByDefaultForComics | codex/views/browser_metadata_base.py:217-238 | outside cover-path mode the default key orders Comic and Folder rows by series name, volume name, issue, issue suffix, name, then "pk" |
| BrowserOrder.OrderByDefaultForGroups | codex/views/browser_metadata_base.py:227-228 | outside cover-path mode the default key orders group rows by the model's own ordering |
| BrowserOrder.OrderByCoverPath | codex/views/browser_metadata_base.py:211-238 | in cover-path mode "search_score" becomes "comic__searchresult__score" and "pk" (all behind the prefix); the default key uses the Comic ordering; any other key orders by itself |
| BrowserOrder.PrefixedMember | codex/views/browser_metadata_base.py:238 | the prefixed list contains `prefix + x` only if the unprefixed list contains `x` |
| BrowserOrder.OrderValueExactlyWhenAggregated | codex/views/browser_metadata_base.py:152-231 | outside cover-path mode, rows are ordered by `order_value` exactly when the aggregate for the same key is not the default sort's null value (given that the model ordering is non-empty and does not name `order_value`) |

## Left out

- Threads and queues are not modelled.
  - `AggregateMessageQueuedThread`, the base class whose worker loop calls `_aggregate_items` and `_send_all_items`, is defined in `codex/threads.py`, which is not part of this model. `EventBatcher.startup`, which starts that thread, is left out too: it is concurrency.
  - The handler's push onto the batcher's inbound queue is `Dispatch`'s return value.
  - `LIBRARIAN_QUEUE.put` is an append to the `librarianQueue` field. The flush state machine and shutdown of the worker are not modelled.
- `super().dispatch(event)` (watchdog's `FileSystemEventHandler` hooks) does nothing Codex-specific. It is left out.
- watchdog's event classes are reduced to their kind, directory flag, source path and (for moves) destination. Event types other than created, modified, deleted and moved are not modelled. The handler would forward such a file event on a comic path, or any such directory event. `_create_task_from_events` would then raise KeyError at `params[field]` (eventsd.py:63-65), just as it would for "dirs_created".
- `_cleanup_cache` is defined in `codex/threads.py`, which is not part of this model. It is modelled as removing the given keys from the cache.
- EventBatching.EventBatcher.CreateTaskFromEvents: when one source path has two different pending moves, Python's set iteration order decides which destination ends up in the map. The contract only says the value is the destination of one of those moves, because that order is not part of the model.
- EventBatching.EventBatcher.SendAllItems: the order of the tasks within one flush (dictionary insertion order in Python) is left open. The contract fixes their set and contents, not their order.
- EventBatching.EventBatcher.CreateTaskFromEvents: it requires that no directory creation is among the events. The source would raise `KeyError` on the field "dirs_created", and the cache invariant guarantees no such event is cached.
- BrowserOrder.GetAggregateFunc: three things are not modelled.
  - The root group of `GROUP_MODEL_MAP` (model `None`).
  - The structure of Django's expressions. `_get_path_query_func` builds a database expression, represented here by its argument.
  - Whether the database filters an aggregate by the search. The source passes `Q(comic__searchresult__query=autoquery_pk)` as the keyword `filters=` (browser_metadata_base.py:180-181), while Django's aggregates take `filter=`. The model records only the pk passed.
- BrowserOrder.GetAggregateFunc and BrowserOrder.GetOrderBy: an `order_by` of `None` is represented by the empty string, which Python treats the same way (`not order_key`). `order_reverse` is the truthiness of the param.
- The rest of `codex/search/backend.py` (the Whoosh backend, its query parsing and indexing) is not modelled. It is foreign library code.
- Nothing of the serializers, migrations or `scan_notify` is modelled. They are context, not the batching, alias or ordering logic.
