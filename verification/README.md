# A verified model of the synapse neuron, cryotank and SQLite storage core

This project models three parts of the synapse repository in Dafny and proves
properties about them.

- **The neuron node** (`synapse/neuron.py`). A node keeps the peer records it
  has heard of and the directed links those records declare. It also keeps
  the by-source and by-destination link indices and a cache of routes. Node
  records are accepted last-writer-wins by tick. Routes are found by a
  breadth-first search and memoised. Every link deletion purges the cached
  routes that crossed it. The node also decides what to do with an incoming
  message. `Dendrite` is a registry of named service handlers.
  - Modules `NeuronGraph` (`neuron_graph.dfy`: links, chains, the search) and
    `Neuron` (`neuron.dfy`: the `Node` class, messages, `Dendrite`).
- **The CryoTank item log** (`synapse/cryotank.py`). Items and one metrics
  record per batch are appended under consecutive indices. Each index is
  stored as an 8-byte big-endian key. Windows `[offs, offs + size)` are read
  back in index order. `CryoCell` is the name registry of tanks.
  - Module `Cryo` (`cryotank.dfy`). The LMDB databases are sequences of
    (key bytes, value) entries in key order. A cursor `set_range` is a scan
    with byte-wise lexicographic comparison.
- **The SQLite storage helpers** (`synapse/cores/sqlite.py`).
  - Query-template preparation: `{{TABLE}}` or `{{BLOB_TABLE}}` is filled in,
    then every `{{NAME}}` the pattern `{{([A-Z]+)}}` finds becomes `:name`.
  - Row encoding into the `intval`/`strval` columns, and the fold back.
  - The choice of a property query from the types of its arguments.
  - The default limit.
  - The iden-prefix ranges of the full-table dump.
  - The blob store.
  - The FIFO connection pool.
  - Modules `Placeholders` (`placeholders.dfy`: `str.replace`, the
    placeholder pattern and the decoration loop over any text),
    `SqliteQuery` (`sqlite_query.dfy`: the templates as data and their
    preparation) and `Sqlite` (`sqlite.dfy`: everything else).

`wrappers.dfy` holds `Option` and `Result`. A Python exception is modelled as
`Err` with the exception's class name. SQL statements, LMDB transactions,
sockets and msgpack are outside the model.

- The results of SQL statements are inputs to the model. Examples are the
  blob table's rows and the highest iden.
- Encoded items are opaque byte strings. Their decoder is a function
  parameter.

## Model

| member | source | states |
|---|---|---|
| NeuronGraph.OutLists | synapse/neuron.py:155-159 | with the by-source index consistent, the list of a node holds exactly the links leaving it (a node with no entry has none) |
| NeuronGraph.FindRoute | synapse/neuron.py:200-233 | a route it returns is a chain of current links from the local node to the target with no more hops than any other chain; None means no chain reaches the target; when a local link leads to the target, the route is that one link (there is at most one, since links are keyed by source and destination) |
| NeuronGraph.FirstTo | synapse/neuron.py:203-207 | the position of the first link in the list that leads to the target, every earlier link leading elsewhere; None iff no link does |
| NeuronGraph.ScanLinks | synapse/neuron.py:221-231 | the scan of one node's links stops at the first link to the target; otherwise it queues the route extended by each link to a node not yet expanded, in link order |
| NeuronGraph.ExpandTail | synapse/neuron.py:215-231 | popping the front route and expanding its tail either returns a shortest route or keeps the search invariant |
| NeuronGraph.ExtensionsMembers | synapse/neuron.py:227-231 | the routes queued by a scan are exactly the front route extended by each link to an unexpanded node |
| NeuronGraph.FirstLevel | synapse/neuron.py:203-210 | the queue of one-hop routes built from the local links, none reaching the target, satisfies the search invariant |
| NeuronGraph.FoundShortest | synapse/neuron.py:223-225 | a link from the front route's tail to the target completes a route no longer than any chain to the target |
| NeuronGraph.Exhausted | synapse/neuron.py:213-233 | once the queue is empty no chain of links leads from the local node to the target |
| NeuronGraph.ExpandedSkip | synapse/neuron.py:215-221 | dropping a front route whose tail was already expanded keeps the search invariant (the source expands it again, which adds nothing new) |
| NeuronGraph.ExpandedStep | synapse/neuron.py:215-231 | expanding the front route's tail keeps the search invariant: queued routes are layered chains, and every link out of an expanded node is covered |
| NeuronGraph.NoChainWithin | synapse/neuron.py:213-231 | while every queued route has at least d hops, every chain to the target has more than d hops (breadth-first order) |
| Neuron.Kept | synapse/neuron.py:113-117 | the links surviving the pruning are exactly those not leaving the iden plus those to a declared neighbour, with their info unchanged |
| Neuron.MergeDeclSpec | synapse/neuron.py:121-131 | the add-or-merge loop adds exactly the declared links (iden, nexn); an existing link's info is dict-updated, so keys the record does not mention survive; other links are untouched |
| Neuron.AcceptedLinks | synapse/neuron.py:113-131 | after an accepted update of an iden seen before, a link from the iden exists iff its destination is declared; links from other nodes keep their presence and info |
| Neuron.PruneAsWrittenSkips | synapse/neuron.py:114-117 | the pruning loop as written, over a list it shrinks while iterating, leaves the second of two omitted links in place |
| Neuron.Pruned | synapse/neuron.py:113-117 | pruning over a snapshot of the by-source list removes exactly the listed links whose destination is not declared |
| Neuron.PrunedIsKept | synapse/neuron.py:113-117 | over the complete by-source list of the iden, the snapshot pruning keeps exactly the links `Kept` describes |
| Neuron.RemoveFirst | synapse/neuron.py:169-170 | `list.remove` drops the one occurrence of the link and keeps every other element, and the list stays free of duplicates |
| Neuron.LinkAdded | synapse/neuron.py:155-159 | adding a new link to the graph and appending it to both index lists keeps the index and cache invariant |
| Neuron.GraphDel | synapse/neuron.py:161-173 | deleting a present link from the graph, both index lists and the routes registered under it keeps the invariant |
| Neuron.CacheDel | synapse/neuron.py:172-173 | after the link and the routes in its bucket are removed, every cached route is still a chain of current links, registered under each of its links |
| Neuron.CacheAdd | synapse/neuron.py:235-239 | caching a chain under its route key and registering the key under each of its links keeps the cache sound |
| Neuron.RegisterRoute | synapse/neuron.py:238 | the route key is added to the bucket of each link of the route, creating missing buckets, and to no other bucket |
| Neuron.PurgeRoutes | synapse/neuron.py:173 | popping each registered route key leaves the cache minus exactly those keys |
| Neuron.HandSockMesg | synapse/neuron.py:142-153 | a message is dispatched iff its kind has a registered handler (only `link`); any other kind is dropped |
| Neuron.Admit | synapse/neuron.py:255-273 | the TTL is decremented and the message dropped below zero or when the socket is neither a link nor a session; a session's message is stamped with this node as origin and the socket's user |
| Neuron.RelayBounded | synapse/neuron.py:261-263 | a message survives at most as many hops as its TTL, losing one per hop |
| Neuron.Node.constructor | synapse/neuron.py:58-72 | a new node knows only its own record (no links, no tick), with empty link maps and an empty route cache |
| Neuron.Node.GetNodeLink | synapse/neuron.py:175-176 | the info of the link under the key, or None iff there is none |
| Neuron.Node.AddNodeLink | synapse/neuron.py:155-159 | the link is stored and appended to the lists of its source and its destination |
| Neuron.Node.DelNodeLink | synapse/neuron.py:161-173 | an unknown key changes nothing; otherwise the link leaves the graph and both lists, and the routes registered under it leave the cache |
| Neuron.Node.DropLink | synapse/neuron.py:164-173 | a present link leaves the graph, the first occurrence leaves each of its two index lists, and the routes in its bucket leave the cache along with the bucket |
| Neuron.Node.AddRouteCache | synapse/neuron.py:235-239 | the route is cached under its key, and the key is added to the bucket of each of its links and to no other bucket |
| Neuron.Node.GetRouteTo | synapse/neuron.py:190-233 | a hit returns the cached route and changes nothing; a miss that finds a route returns a shortest chain, caches it under its key and registers it under exactly its links, leaving every other cache entry and bucket as it was; an unreachable target returns None and changes nothing |
| Neuron.Node.GetRouteNext | synapse/neuron.py:182-188 | the next hop is the destination of the first link of the route to the target, the cached one on a hit; None iff the target is unreachable; the cache is left exactly as `GetRouteTo` leaves it (unchanged on a hit or an unreachable target, otherwise only the shortest route found added and registered), and no cached route is lost |
| Neuron.Node.SetNodeDef | synapse/neuron.py:93-133 | a first-seen iden is accepted, its links merged into the graph as it stands with nothing pruned; the local iden is a KeyError; a missing tick on either side is a TypeError; a stored tick at least the new one returns False; anything but acceptance changes nothing; an accepted update of a known iden replaces the record whole, leaves the links `AcceptedLinks` describes, and removes from the cache exactly the routes registered under the pruned links, together with their buckets; a first-seen iden leaves the cache as it was |
| Neuron.FirstRecordKeepsLinks | synapse/neuron.py:107-121 | a link a→b added from a socket survives the first record of `a`, even one declaring no links |
| Neuron.Node.AcceptNodeDef | synapse/neuron.py:113-131 | for an update of an iden seen before: the record is stored whole, the links are the merge of the declared ones into the pruned graph; the cache loses exactly the routes registered under the links of the iden whose destination is no longer declared, and the buckets of those links |
| Neuron.Node.PruneLinks | synapse/neuron.py:113-117 | each link of the snapshot whose destination is not declared is deleted; the cache loses exactly the routes in the buckets of the deleted links, and those buckets |
| Neuron.Node.MergeLinks | synapse/neuron.py:121-131 | each declared neighbour gets a new link or has its info merged into the existing one |
| Neuron.Node.RoutXmitMesg | synapse/neuron.py:275-290 | a message for this node is delivered locally; for another node it is dropped iff the destination is unreachable, and otherwise the message is transmitted to the first hop's socket iff that hop has one, and dropped for want of it otherwise; the cache changes only as the lookup of the destination changes it, and not at all for local delivery |
| Neuron.Node.HandXmitMesg | synapse/neuron.py:255-273 | a TTL that falls below zero drops the message; a socket that is neither link nor session drops it; an admitted message, TTL one lower and stamped as `Admit` says, is delivered locally when it is for this node and otherwise routed exactly as `RoutXmitMesg` routes it; every case but routing leaves the cache unchanged |
| Neuron.RouteTwice | synapse/tests/test_neuron.py:74-79 | two route requests with nothing changed in between return the same route |
| Neuron.ExecReplies | synapse/neuron.py:344-360 | at most one reply; a failure iff the name is unknown (NoSuchName) or the handler raises (its class); a success with v iff the handler replies v through the task |
| Neuron.Dendrite.Add | synapse/neuron.py:333-337 | registering a name replaces any earlier handler for it |
| Neuron.Dendrite.constructor | synapse/neuron.py:330 | a new registry has no endpoints |
| Neuron.Dendrite.Exec | synapse/neuron.py:344-360 | the task is finished afterwards and receives one failure for an unknown name, one failure with the exception class for a raising handler, the handler's reply for a replying one, and nothing otherwise; no failure propagates |
| Neuron.DendriteScenario | synapse/tests/test_neuron.py:97-135 | the adding endpoint replies (True, 30) and the raising one (False, 'Exception') |
| Cryo.UnpackPackBE | synapse/cryotank.py:90 | unpacking the w-byte big-endian encoding of n gives n back |
| Cryo.PackUnpackBE | synapse/cryotank.py:66 | every byte string is the big-endian encoding of the number it denotes |
| Cryo.UnpackPackQ | synapse/cryotank.py:164 | `struct.unpack('>Q', struct.pack('>Q', n))` is n for every n below 2**64 |
| Cryo.PackUnpackQ | synapse/cryotank.py:66 | every 8-byte key is the packing of its unpacked index, which is below 2**64 |
| Cryo.LexLessIsNumeric | synapse/cryotank.py:159-166 | on byte strings of one length, lexicographic order is numeric order |
| Cryo.PackQOrder | synapse/cryotank.py:159-166 | packed keys compare as their indices do, so cursor order is index order |
| Cryo.SetRange | synapse/cryotank.py:159 | the cursor lands on the first entry whose key is not below the bound, every entry before it being below; None iff every key is below it |
| Cryo.StampedKeyed | synapse/cryotank.py:86-94 | a batch stored from the current count on under consecutive packed keys keeps the store keyed by index |
| Cryo.SetRangeKeyed | synapse/cryotank.py:159-160 | in a keyed store, `set_range(pack(offs))` lands on index offs, and fails iff offs is past the end |
| Cryo.WindowExact | synapse/cryotank.py:162-168 | the window holds exactly the entries with offs <= index < offs + size, in ascending index order |
| Cryo.ScanWindow | synapse/cryotank.py:152-168 | the cursor loop returns exactly the window of the store at offs; an offset outside the 8-byte range is a struct error |
| Cryo.SumLenAppend | synapse/cryotank.py:82 | the total size of two batches is the sum of their sizes |
| Cryo.CryoTank.Open | synapse/cryotank.py:36-38 | on open, the item and metrics counters equal the numbers of stored entries |
| Cryo.CryoTank.Last | synapse/cryotank.py:55-67 | None iff the tank is empty; otherwise the greatest index with its decoded item |
| Cryo.CryoTank.Puts | synapse/cryotank.py:69-106 | returns the item counter at call start; the items get the consecutive indices from there; the counter grows by the batch length; one metrics record (count, total size) is appended at the old metrics counter, which grows by one |
| Cryo.CryoTank.Slice | synapse/cryotank.py:137-168 | the decoded items of the window [offs, offs + size), in index order |
| Cryo.CryoTank.Rows | synapse/cryotank.py:170-198 | the raw item bytes of the window [offs, offs + size), in index order |
| Cryo.CryoTank.Metrics | synapse/cryotank.py:108-135 | the metrics records of the window [offs, offs + size), in index order |
| Cryo.CryoTank.Info | synapse/cryotank.py:200-207 | the two counters, which equal the numbers of stored items and metrics records |
| Cryo.CryoCell.GenCryoTank | synapse/cryotank.py:247-275 | a known name returns its tank and changes nothing; a failing constructor returns None and registers nothing; otherwise the name is registered with the new iden, its conf and an empty tank |
| Cryo.CryoCell.OnCryoInit | synapse/cryotank.py:371-382 | False for an existing name; otherwise whether the tank could be created |
| Cryo.CryoCell.OnCryoDele | synapse/cryotank.py:300-314 | True iff the name had a tank; the name leaves tanks and names, and its conf stays |
| Cryo.CryoCell.OnCryoLast | synapse/cryotank.py:286-294 | None for an unknown name or an empty tank, else that tank's last item |
| Placeholders.ReplaceFill | synapse/cores/sqlite.py:351 | replacing `{{a}}` in the text fills in exactly the holes named a and leaves every other chunk as it was |
| Placeholders.FindPh | synapse/cores/sqlite.py:15 | the pattern captures a placeholder's name iff the name is all capitals |
| Placeholders.FindFill | synapse/cores/sqlite.py:15 | on a text with holes, the pattern finds exactly the all-capital names of the unfilled holes, in order |
| Placeholders.DecorPlain | synapse/cores/sqlite.py:333-334 | the variable token is `:` and the name in lower case, with no `{` in it |
| Placeholders.LoopSubComplete | synapse/cores/sqlite.py:353-354 | once the loop has handled every name found, the text is that of the completed substitution |
| Placeholders.Decorate | synapse/cores/sqlite.py:353-354 | the loop turns every all-capital placeholder into its variable token and leaves the names filled in before as they were |
| Placeholders.NothingPending | synapse/cores/sqlite.py:353-356 | with every all-capital hole filled, the pattern finds nothing |
| Placeholders.FillPlain | synapse/cores/sqlite.py:347-356 | once every hole is filled with text free of `{`, no `{` is left |
| Placeholders.CompletionFacts | synapse/cores/sqlite.py:347-356 | after the loop no placeholder the pattern can see is left, and none at all when each hole was filled first or is all capitals |
| SqliteQuery.NameChars | synapse/cores/sqlite.py:124 | every placeholder name is a run of capitals and underscores, and `BLOB_TABLE` is the only one the pattern does not match |
| SqliteQuery.FlattenFacts | synapse/cores/sqlite.py:136-253 | a template's literal text has no `{`, and its holes are the names that occur in it |
| SqliteQuery.HoleNames | synapse/cores/sqlite.py:15 | every hole of a template is a placeholder name, all capitals unless it is `BLOB_TABLE` |
| SqliteQuery.PrepFacts | synapse/cores/sqlite.py:347-368 | after the first name is filled in and the rest decorated, no all-capital placeholder is left, and no `{` when `BLOB_TABLE` is absent or was filled in first |
| SqliteQuery.PrepQuery | synapse/cores/sqlite.py:347-356 | `{{TABLE}}` becomes `syncortex`, every other all-capital placeholder its token, and no placeholder the pattern matches is left; `{{BLOB_TABLE}}` would be left alone |
| SqliteQuery.InitCorQueries | synapse/cores/sqlite.py:370-397 | the row queries are prepared with `_prepQuery`, the blob queries with `_prepBlobQuery`, and every one of them is left as plain SQL with no placeholder |
| SqliteQuery.PrepBlobQuery | synapse/cores/sqlite.py:358-368 | `{{BLOB_TABLE}}` becomes `syncortex_blob`, then every all-capital placeholder its token; no `{` is left |
| SqliteQuery.PropQuerySelects | synapse/cores/sqlite.py:156-253 | a property query compares prop always, intval or strval as its value column says, tstamp >= and < as its bounds say, and has a LIMIT as it says |
| SqliteQuery.QBuildFields | synapse/cores/sqlite.py:446-527 | a query is filed under the types exactly when valu is None, int or str and each time bound None or int; it belongs to the family asked for, filters the value column matching valu's type, has each time bound iff given as an int, and a LIMIT unless it deletes |
| SqliteQuery.QBuildSelects | synapse/cores/sqlite.py:446-527 | the SQL of the query found filters on intval iff valu is an int, on strval iff a str, on tstamp >= iff mintime is an int and tstamp < iff maxtime is |
| Sqlite.GetDbLimit | synapse/cores/sqlite.py:275-278 | the limit given, or `dblim` (-1, no limit) when there is none |
| Sqlite.Encode | synapse/cores/sqlite.py:601-605 | an int value goes in intval with strval None; a str in strval with intval None; None leaves both None |
| Sqlite.FoldRow | synapse/cores/sqlite.py:624-633 | the fold unpacks the columns by position, so it keeps the table's strval cell unless it is NULL, and otherwise the intval cell |
| Sqlite.InsertOneCell | synapse/cores/sqlite.py:113-120 | a stored row has at most one of its two value cells set, both being NULL exactly for a None value, so the positional fold and the fold by column name agree |
| Sqlite.FoldReadsStrvalFirst | synapse/cores/sqlite.py:626 | where both cells are set, the positional fold reads strval, and differs from a fold by name iff the cells differ |
| Sqlite.RowRoundTrip | synapse/cores/sqlite.py:599-633 | a row stored by `_addRows` and read back by `_foldTypeCols` is the row stored, a None value reading back as NULL |
| Sqlite.AddRows | synapse/cores/sqlite.py:599-606 | one insert argument set per row, in order, each the row's encoding |
| Sqlite.FoldTypeCols | synapse/cores/sqlite.py:624-633 | every selected row folded, in order |
| Sqlite.RowsRoundTrip | synapse/cores/sqlite.py:599-633 | rows added and selected back in the same order fold to the rows added |
| Sqlite.RunPropQuery | synapse/cores/sqlite.py:667-678 | KeyError iff the argument types have no query; otherwise the query filed under them, prepared, with no placeholder left, selecting on the arguments given, with the default limit applied |
| Sqlite.HexParse | synapse/cores/sqlite.py:774-785 | the zero-padded hex of n reads back as n with `int(_, 16)` |
| Sqlite.HexLength | synapse/cores/sqlite.py:774 | the hex of n is padded to at least w digits, exactly w when n fits in them |
| Sqlite.ParseZeros | synapse/cores/sqlite.py:783-784 | the first lower bound, a run of zeros, reads as 0 |
| Sqlite.OverflowFrom256 | synapse/cores/sqlite.py:775-776 | with an incvalu of 1 the division overflows exactly for a slicebytes of 256 or more |
| Sqlite.WalkRanges | synapse/cores/sqlite.py:783-808 | the loop queries one range per step of the counter, starting from the first lower bound, and stops after the first range whose counter reaches `16 ** slicebytes`, which ends at the highest iden |
| Sqlite.GenStoreRows | synapse/cores/sqlite.py:762-814 | nothing for an empty table; ZeroDivisionError for an incvalu of 0; OverflowError when `16 ** slicebytes / incvalu` is beyond the range of a float; ValueError for a slicebytes of 0; otherwise the ranges the counter walks, and a separate fetch of the highest iden iff the table holds it |
| Sqlite.RangesContiguous | synapse/cores/sqlite.py:783-807 | the first lower bound is all zeros, each later lower bound is the previous upper bound, each upper bound but the last is (k + 1) * incvalu in hex with exactly slicebytes digits, and the last is 32 `f`s |
| Sqlite.BoundHex | synapse/cores/sqlite.py:785-807 | an upper bound before the last has exactly slicebytes hex digits and reads as its counter |
| Sqlite.RangesCount | synapse/cores/sqlite.py:755-757 | when incvalu divides 16 ** slicebytes, the scan makes 16 ** slicebytes / incvalu queries |
| Sqlite.DefaultQueries | synapse/cores/sqlite.py:755-757 | with the defaults (4 and 4) the scan makes 16384 queries |
| Sqlite.MatchesEmpty | synapse/cores/sqlite.py:819-832 | the select under a key returns no row iff no row has that key |
| Sqlite.UniqueMatches | synapse/cores/sqlite.py:134 | under the unique index a key has at most one row, so the Too-many-rows error cannot occur |
| Sqlite.DropMatches | synapse/cores/sqlite.py:152 | the delete under a key removes its rows and leaves every other key's |
| Sqlite.DropUnique | synapse/cores/sqlite.py:152 | after the delete exactly the other keys remain, still distinct |
| Sqlite.ReplaceFacts | synapse/cores/sqlite.py:150 | after `INSERT OR REPLACE` the key holds exactly the new value, other keys what they held, and keys stay distinct |
| Sqlite.BlobStore.SetBlobValu | synapse/cores/sqlite.py:837-840 | the value replaces any old one under the key and is handed back; keys stay distinct |
| Sqlite.BlobStore.constructor | synapse/cores/sqlite.py:123-127 | a new blob table is empty |
| Sqlite.BlobStore.GetBlobValu | synapse/cores/sqlite.py:819-832 | None for no row, the value for one, BadCoreStore for more |
| Sqlite.BlobStore.HasBlobValu | synapse/cores/sqlite.py:842-850 | BadCoreStore for more than one row, otherwise whether there is one |
| Sqlite.BlobStore.DelBlobValu | synapse/cores/sqlite.py:852-858 | NoSuchName for an absent key, with nothing deleted; otherwise the key's row is deleted and its old value returned |
| Sqlite.BlobStore.GetBlobKeys | synapse/cores/sqlite.py:860-863 | the key of every row, in row order |
| Sqlite.DbPool.constructor | synapse/cores/sqlite.py:79-87 | the pool starts holding the size connections the factory made, in order of making |
| Sqlite.DbPool.Put | synapse/cores/sqlite.py:89-93 | a connection joins the back of the queue |
| Sqlite.DbPool.Get | synapse/cores/sqlite.py:95-96 | the connection at the front of the queue leaves it (first in, first out) |

## Left out

- Concurrency is not modelled. This covers the node's `RLock`, the global lock `getRouteTo` takes, pool offloading (`_onSockMesg`, `@s_glob.inpool`) and the pool's blocking queue. Every operation is atomic and sequential.
- I/O is not modelled: sqlite3 connections, cursors and transactions, the LMDB environment, sockets, the `Plex`, the `Fifo`, the node's cortex and `shutil.rmtree`.
  - SQL execution is not modelled. The rows a statement returns are inputs, and the blob table is a sequence of rows.
- msgpack is not modelled. Items are opaque byte strings, and decoding is a function parameter.
- Wall-clock values are not modelled: ticks taken from the clock, the metrics `time` and `took` fields, and the logging and the `percentaged` progress table in `_genStoreRows`.
- Configuration is not modelled: `Config`, `_getNeurConf`, the directory checks in `Node.__init__`, the `s_link.chop` of the configured links, and the CryoTank map size.
- Neuron.Node.GetRouteNext: the source calls a misspelled `getRoutTo` and so would raise AttributeError. The model calls `GetRouteTo`, as evidently intended.
- Neuron.HandSockMesg: the source logs a handler's exception through an undefined `logger`. The model only states which kind is dispatched. The only handler, `_handLinkMesg`, has no effect in the source and none here.
- Neuron.Admit: the source stamps origin and user by assigning string keys into the message tuple, which would raise TypeError. The model stamps them, as evidently intended.
- Neuron.Node.RoutXmitMesg: `_handXmitSelf` relies on an unimported `s_msgpack` and an undefined `self.sess`, so local delivery is an outcome of its own here. The undefined `getLinkSock` is a map from next hop to socket, given as a parameter.
- Neuron.ExecReplies: for an unknown service name the source raises with an undefined `NoSuchName` and an undefined `name`. That raises NameError, which the task reports. The model reports "NoSuchName", as evidently intended. A handler's exception is its class name, standing for the source's exception info.
- NeuronGraph.FindRoute: `links_by_src.get(tail)` returns None for a node that never had an outbound link, and iterating over it would raise. The model treats it as an empty list.
- NeuronGraph.FindRoute: among several shortest routes of two hops or more, the contract does not fix which one is returned. The order the search visits routes in (link registration order, then queue order) is followed by the body but not stated.
- NeuronGraph.FindRoute: the source expands a tail again when a later route reaches it. The model drops such a route instead. ExpandedSkip proves that the search invariant survives the drop, so the contract of FindRoute holds, but the model does not prove that both searches return the same route.
- Neuron.Node.AddNodeLink: the model requires the key to be new, which is how `setNodeDef` calls it. Re-adding a present key in the source replaces the info and appends a second entry to each index list.
- Neuron.Dendrite.Exec: a handler is one of three outcomes. A source handler that replies through `task.retn` and then raises would give the task two replies, which the model does not express. What a task does with a second reply is not part of this model.
- Neuron.Node.SetNodeDef: the errors are named by their exception class only.
- Neuron.Node.PruneLinks: the order of the entries left in the two index lists is bound only by the index invariant. The contract says which keys each list holds, not where each one sits.
- Neuron.Node.SetNodeDef: the declared neighbours must be distinct, as the keys of a dict are. A link's info is shared by reference in the source; here it lives once, in `links`.
- Cryo.CryoTank.Puts: the model requires both counters to stay within 2**64. Beyond that the source's `struct.pack` raises after the counter has already moved.
- Cryo.CryoTank.Info: the `stat` entry, LMDB's own statistics, is not modelled.
- Cryo.CryoCell.GenCryoTank: the fresh `guid` iden and whether the tank constructor raises are parameters. The tanks reopened by `postCell`, `finiCell` and `getCryoList` are not modelled.
- The channel handlers `_onCryoList`, `_onCryoSlice`, `_onCryoRows`, `_onCryoMetrics` and `_onCryoPuts` are not modelled. They only forward to the tank methods modelled above. The `CryoUser` network client is not modelled either.
- Cryo.CryoCell.OnCryoInit: the source tests the tank's truthiness, which here is taken to be true for any tank.
- SqliteQuery.QBuildFields: the source prepares the whole `qbuild` table at start-up; the model prepares the query it finds. A value whose type is a subclass of int or str (such as bool) has its own `type(...)` and is the "other" type here.
- SqliteQuery.PrepQuery: only the templates that the query choice, the row insert and select, the iden-range dump and the blob store use are written out as data. The preparation is proved for every template.
- Sqlite.GenStoreRows: the model requires a non-negative `incvalu`. With a negative one the source's loop never ends. `slicebytes` is a natural number. The rows each range yields and their folding are not modelled; the range bounds and the separate fetch of the highest iden are.
- Sqlite.Encode: values are ints, strs and None. A float, bytes or other object goes into `strval` with SQLite's own conversions, and a bool goes into `intval` as 0 or 1. An int outside 64 bits makes sqlite3 raise OverflowError. The model does not express any of these, because they rest on the SQL engine's type affinity rather than on this code.
- Sqlite.DbPool.Get: the model requires a non-empty queue. The source's `queue.Queue.get` blocks until a connection is returned.
- Sqlite.BlobStore.SetBlobValu: the `sqlite3.Binary` wrapping is the identity on bytes here.
- `synapse/link.py`, `synapse/tools/cryo/cat.py`, the CI script and the organisation-model test are not part of this model.

## Findings

| source | as written | input that shows it | evidently intended | confidence | as-written member | corrected member |
|---|---|---|---|---|---|---|
| synapse/neuron.py:115-117 | the pruning loop iterates over `links_by_src[iden]` while `delNodeLink` removes the current link from that same list, so the link after each removed one is never examined | a stored node `a` with links to `b` and `c`, updated by a newer record declaring neither: the loop removes a→b and then ends, leaving a→c | every outbound link whose destination the new record omits is removed (iterate over a copy) | not executed | Neuron.PruneAsWrittenSkips | Neuron.PrunedIsKept |
