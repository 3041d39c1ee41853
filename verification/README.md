# Verified model of the proxy's stateful core

This project models the parts of the proxy that keep state or transform data in ways that
are easy to get wrong, and proves what they promise for all inputs, all runs and all
interleavings. `dafny verify dfyconfig.toml` checks everything.

**Configuration merge** (`yaml_*.dfy`). A generated config tree is merged in place into the
user's tree so that comments, order and style survive. `YamlTree` says what the code
computes as functions on snapshots of trees; a snapshot keeps the identity of every node
object, so reuse of nodes can be stated. `YamlHeap`, `YamlPrune`, `YamlInPlace` and
`YamlMerge` run the code's loops on `Node` objects and show that they leave exactly those
trees, touching only nodes of the user's tree and new ones (`YamlLike`: merging goes on from
copies of src's nodes as from src's nodes themselves). `YamlMeaning` proves that
everything the generated tree says is carried by the result, and what stays untouched;
`YamlStale` that nothing is left in a list item that the generated item lacks; `YamlDefaults`
what counts as a default and that none is added; `YamlTraces` where every node of the result
comes from; `YamlPairing` that list items are paired injectively and by identity, and
`YamlIdentity` what that identity is; `YamlAgain` that merging can be repeated. `YamlCopy` treats `deepCopyNode` on arbitrary finite graphs, with
sharing, cycles and aliases.

**Redis protocol and usage bridge** (`decimal.dfy`, `resp_*.dfy`, `output.dfy`). The server's
writers, the strict reader of the bridge and the lenient reader of the server, as functions
of a stream's bytes and as methods on a reader and a writer that may break. `RespGrammar` says
which bytes the readers accept, `RespServed` which bytes both sides send and what the bridge
keeps. The format is
the Redis serialization protocol specification (RESP2), sections "Simple strings",
"Integers", "Bulk strings", "Null bulk strings" and "Arrays".

**Plugin host** (`client_guard.dfy`, `callback_contexts.dfy`, `places.dfy`, `host_*.dfy`,
`plugin_host.dfy`, `ordering.dfy`, `record_order.dfy`, `executors.dfy`). Each component is a state machine
whose steps are the sections between two releases of a mutex, taken by any number of
threads in any order, and a class whose methods are those sections. The methods of
`PluginHost` that span several sections return the run of steps that they are; `HostApply`
says which files of a config reach the snapshot that `ApplyConfig` publishes, `HostFields` the
same of the host's fields and the configured items, and which clients it installs;
`HostCommits` what `RegisterModels` commits in any interleaving.

**Caches** (`signature_cache.dfy`, `replay_cache.dfy`). The maps with sliding expiry, bulk
eviction and purge, against a plain timestamped record of each key.

**Request log** (`log_text.dfy`, `log_laws.dfy`, `log_writer.dfy`). The text of a log and the
writers that send it, from memory or streamed from files in chunks of any size.

`text.dfy` and `text_laws.dfy` hold the string functions that all of these use.

Conventions: a Go string or byte slice is a Dafny `string` with one character per byte
(`Text.bytes`); times are nanoseconds; what the environment decides (a library that loads
or not, how much a writer accepts, the size of a chunk) is left open. A function passed as
a parameter (`hash`, `normal`, `owner`) stands for any function. `hide` statements keep
proofs short; they change nothing that is proved.

The hypotheses are those of the code's own setting. Merge: trees without shared nodes, source
and destination apart, no aliases in the generated source. That src is carried needs whole
pairs of distinct, non-blank scalar keys in the generated source (`YamlMeaning.Proper`) and
nothing but whole pairs in the user's tree, whose keys may repeat or be blank and which may
hold aliases. Host: the file search
yields one file per id, ids are trimmed and taken from the path (`HostState.Selectable`).
Executors: what is claimed is said of records with distinct ids, which is what the host
publishes. Caches: operations
one at a time, a clock that never goes back.

Where comments in the code and the code differ, the model follows the code:
`mergeNodePreserve` is said to update sequences by index, but it pairs items by identity
first and drops the ones src lacks.

Results that a reader may not expect:

- A claimed model is not always registered (`Executors.ClaimedNotRegistered`);
  `Executors.PlannedClients` says exactly when it is.
- A commit can replace an executor of somebody else (`Executors.NativeReplaced`). It does so
  exactly when that executor serves, at the commit, a provider for which the second pass saw
  nobody (`Executors.NativesReplaced`); when what the second pass saw is still so, nobody
  else's executor is touched (`Executors.NativesStay`).
- `ShutdownAll` empties the host's books without unregistering its executors. The books are
  right afterwards exactly when the host had none (`Executors.ExecutorBoard.ShutdownAll`), and
  an executor left behind stays registered through any number of later commits until one plans
  its provider again (`Executors.OrphanStays`, `Executors.CommitServes`).
- A later `Shutdown` of a plugin client can return before the client's own shutdown has
  started, at once (`ClientGuard.SecondShutdownReturnsEarly`) or after it was woken
  (`ClientGuard.WokenShutdownReturnsEarly`). It finds the client shut down exactly when the
  first Shutdown is neither about to take the client nor at it (`ClientGuard.LaterShutdown`).
- Replay cache keys of different pairs coincide for some model names with a NUL byte
  (`ReplayCache.KeyCollision`): exactly when one model goes on where the other ends with a NUL,
  and the session of the shorter is what is left (`ReplayCache.SharedKeys`). Without NUL bytes
  in model names they never do (`ReplayCache.KeyInjective`).
- A store into a full replay cache can evict its own entry (`ReplayCache.OwnEvictionHappens`):
  exactly when it takes the cache over its limit and finds fewer than 128 entries that are
  older than itself (`ReplayCache.OwnEvictionInRuns`). Every entry left then has the same time
  (`ReplayCache.OwnEvictionIsATie`).
- A section streamed from a source differs from the in-memory section of the same bytes
  exactly when these are empty or begin with the section's prefix
  (`LogText.SourceIsSection`).

## Model

| member | source | states |
|---|---|---|
| YamlCopy.DeepCopySeen | internal/config/config.go:1652-1671 | on any finite closed graph, cyclic or shared, the copy terminates; `seen` ends as an injective map onto fresh nodes with the same fields, children in the same order and aliases mapped, and no old node changes |
| YamlCopy.DeepCopy | internal/config/config.go:1648-1650 | the same from an empty `seen`: the map is an isomorphism of the reachable graph onto fresh nodes |
| YamlHeap.CopyTree | internal/config/config.go:1648-1650 | on a tree the copy is a fresh tree without sharing and with the same content |
| YamlHeap.FindMapKeyIndex | internal/config/config.go:1500-1510 | finds the first key node with that value, and -1 for anything but a mapping that has it |
| YamlHeap.IsZeroValueNode | internal/config/config.go:1605-1645 | decides zero values of scalars by tag, and of lists and mappings by their values |
| YamlHeap.IsKnownDefaultValue | internal/config/config.go:1526-1562 | decides zero values and the listed defaults at their paths |
| YamlHeap.SequenceElementIdentity | internal/config/config.go:1758-1780 | the identity of an item: the first identity key with a scalar that is not blank, else the first such scalar of any key |
| YamlHeap.MappingScalarValue | internal/config/config.go:1782-1798 | the trimmed scalar under the first key that matches ignoring case, even when that scalar is blank; empty for anything but a mapping |
| TextLaws.TrimSpaceIs | internal/config/config.go:1793-1794 | a text is white-space runes, its trimmed form and white-space runes, and the trimmed form neither starts nor ends with one |
| TextLaws.ToLowerIs | internal/config/config.go:1786 | lower-casing changes the 26 capitals, each to its own letter, and nothing else |
| YamlHeap.NodesStructurallyEqual | internal/config/config.go:1800-1838 | structural equality with an item of src, which has no aliases; scalars are compared trimmed |
| YamlMeaning.PruneKeepsDefault | internal/config/config.go:1566-1600 | pruning never makes a known default into something else |
| YamlMeaning.PruneLookup | internal/config/config.go:1571-1591 | a key of a pruned mapping is found with its pruned value, or was dropped because that value is a default or became empty |
| YamlDefaults.ZeroIs | internal/config/config.go:1605-1645 | a value is zero if and only if every node that leads from it through list items and values of mappings is a list, a mapping or one of the six zero scalars or a null |
| YamlDefaults.DefaultIs | internal/config/config.go:1526-1562 | a known default is a zero value or one of the five listed scalars at its dotted path |
| TextLaws.JoinIs | internal/config/config.go:1537 | joining: one part is itself, two lists of parts have one separator between them |
| YamlDefaults.PruneClean | internal/config/config.go:1566-1600 | after pruning no key at any depth holds an empty list or mapping, a zero scalar or a listed default |
| YamlDefaults.NewKeysClean | internal/config/config.go:1417-1427 | a key that the merge adds has such a value, and one that is neither zero nor a listed default itself |
| YamlDefaults.EmptyListKept | internal/config/config.go:1444-1456 | where src has an empty list a null of dst stays as it is, and any other node becomes that list in place |
| YamlPrune.PruneKnownDefaultsInNewNode | internal/config/config.go:1566-1600 | the in-place pruning changes only the tree it is given and leaves the pruned tree in the same root node |
| YamlMeaning.MergeMappingClosed | internal/config/config.go:1409-1427 | merging two mappings merges each matching value in place and appends src's new, pruned, non-default pairs in src's order |
| YamlMeaning.MergeFrameKeys | internal/config/config.go:1391-1428 | dst keeps node, tag, style and comments; its key list is the old one followed by the new keys in src's order |
| YamlMeaning.MergeFrameEntries | internal/config/config.go:1391-1428 | every old entry stays at its place with its node, style and comments; keys that src lacks keep their whole subtree |
| YamlMeaning.MergeKeepsRoot | internal/config/config.go:1484-1488 | merging keeps dst's node object, style and comments, whatever the kinds |
| YamlMeaning.SelfMerge | internal/config/config.go:1443-1447 | merging src into a copy of itself changes nothing, so replacing a node of another kind and merging again is harmless |
| YamlMeaning.KeepOnly | internal/config/config.go:1928-1957 | no key survives the removal that src's mapping lacks |
| YamlMeaning.KeepLookup | internal/config/config.go:1928-1957 | every key that src has survives the removal with its value |
| YamlMeaning.MergeCarries | internal/config/config.go:1391-1496 | after the merge into any user tree every src path is there with its kind, tag and value, and every src list has src's exact length; missing are only keys that dst lacked and whose pruned value is a known default, and a null of dst may stand for an empty list |
| YamlTraces.MergeTraces | internal/config/config.go:1391-1496 | every node of the merged tree is a node of dst with its style, comments and anchor, or a node of src with all its fields |
| YamlAgain.MergeProper | internal/config/config.go:1391-1496 | a merged tree again has distinct, non-blank scalar keys everywhere |
| YamlAgain.MergeWhole | internal/config/config.go:1391-1496 | a merged tree again has whole pairs everywhere, whatever the keys |
| YamlAgain.MergeAgain | internal/config/config.go:1271-1273 | a later merge into a merged tree carries all that its own src says, whatever keys the user's tree has |
| YamlPairing.PairingInjective | internal/config/config.go:1693-1713 | no dst item is placed twice |
| YamlPairing.StructEqualHandle | internal/config/config.go:1758-1838 | structurally equal items have equal identities |
| YamlPairing.PairingFaithful | internal/config/config.go:1693-1756 | an item is only paired with an item of its own kind and identity |
| YamlPairing.PairingComplete | internal/config/config.go:1715-1756 | an item whose identity no earlier src item shares is paired if and only if dst has an item of that identity, and then with the first |
| YamlIdentity.HandleIs | internal/config/config.go:1758-1798 | a mapping is recognised by the first of the nine identity keys whose first scalar is not blank, else by its first scalar that is not blank, with its key trimmed and lower-cased, else by nothing; a scalar by its trimmed value |
| YamlIdentity.StructEqualIs | internal/config/config.go:1800-1838 | structural equality is equality of shapes: kinds, trimmed scalars, lengths and the shapes inside |
| YamlIdentity.PairingByShape | internal/config/config.go:1747-1756 | an item that nothing recognises, and whose shape no earlier src item has, is paired if and only if dst has an item of that shape, and then with the first |
| YamlInPlace.CopyNodeShallow | internal/config/config.go:1675-1691 | the node takes src's kind, tag and value and fresh copies of its children, and keeps its style and comments |
| YamlInPlace.MatchSequenceElement | internal/config/config.go:1715-1756 | the index chosen is the first unused item of the same identity, else the first unused one that is structurally equal |
| YamlInPlace.ReorderSequenceForMerge | internal/config/config.go:1693-1713 | the children become the paired dst nodes in src's order, nil where none was paired |
| YamlInPlace.PruneMissingMapKeys | internal/config/config.go:1928-1957 | in place; what is left is, pair by pair and in order, exactly the pairs whose trimmed key is the trimmed key of some pair of src; nothing changes unless both are mappings |
| YamlStale.RemovalKeeps | internal/config/config.go:1928-1957 | of a mapping with whole pairs the removal keeps exactly the pairs, in their order, whose trimmed key is not blank and is the trimmed key of a pair of src |
| YamlStale.MergeNothingStale | internal/config/config.go:1464-1478 | after the merge, in every list at any depth, every key of a mapping is a key of src's item at that place |
| YamlCopied.CopiedCarries | internal/config/config.go:1648-1671 | what a tree carries, the tree with src's nodes copied carries |
| YamlLike.LikeMerge | internal/config/config.go:1443-1447 | the merge computes the same from copies of src's nodes as from the nodes themselves, which is what replacing a node and then merging into it relies on |
| YamlMerge.MergeMappingPreserve | internal/config/config.go:1394-1428 | in place, for any keys, aliases and kinds in dst and any keys in src, dst ends as the merged mapping with src's nodes copied, built of dst's nodes and new ones only |
| YamlMerge.UpdateItems | internal/config/config.go:1464-1476 | the updating loop over a reordered list leaves the first items merged or copied |
| YamlMerge.MergeItemsPreserve | internal/config/config.go:1458-1485 | reordering, updating, appending and truncating leave exactly the merged list |
| YamlMerge.MergeNodePreserve | internal/config/config.go:1433-1496 | in place, for every kind of node, dst ends as the merged node with src's nodes copied, built of dst's nodes and new ones only |
| YamlMerge.MergeGenerated | internal/config/config.go:1271-1273 | after the merge of a generated config into any user tree dst carries everything src says; in every merged list, at any depth, a mapping has no key left that src's item lacks; src is unchanged, and dst can be merged into again; distinct and non-blank keys stay so |
| Decimal.AtoiOfItoa | internal/api/redis_queue_protocol.go:421-428 | parsing a printed 64-bit number gives it back |
| RespLaws.StrictArrayFramed | internal/api/dataplane_usage_bridge.go:374-388 | where the strict reader succeeds, it does the same on any stream that is longer or shorter beyond where it stopped, and meets the end of file on every shorter one |
| RespLaws.LenientArrayFramed | internal/api/redis_queue_protocol.go:413-438 | the same for the lenient reader |
| RespLaws.StrictRefinesLenient | internal/api/dataplane_usage_bridge.go:275-388 | on every stream where the strict reader succeeds the lenient one returns the same elements, nil as empty, and stops at the same byte |
| RespRoundTrip.ArrayRoundTrip | internal/api/redis_queue_protocol.go:511-541 | whatever comes before and after, both readers give back the written list and stop right after it; the strict one keeps nil apart |
| RespRoundTrip.CommandRoundTrip | internal/api/dataplane_usage_bridge.go:259-273 | a command of at least one word is read by the server word for word |
| RespRoundTrip.ArrayCutShort | internal/api/redis_queue_protocol.go:413-438 | a stream that ends anywhere inside an array gives both readers an end-of-file error |
| RespServed.BulkIs | internal/api/redis_queue_protocol.go:503-526 | the bytes of a bulk string and of nil |
| RespGrammar.BridgeBulk | internal/api/dataplane_usage_bridge.go:304-331 | the strict reader returns a string and a position if and only if the bytes in between are a length line with that length, the string and CR LF, or a negative length line for nil |
| RespGrammar.BridgeArray | internal/api/dataplane_usage_bridge.go:333-388 | the strict reader returns a list and a position if and only if the bytes in between spell that list |
| RespGrammar.BridgeAck | internal/api/dataplane_usage_bridge.go:390-414 | an ack is accepted if and only if the bytes are a header of three, the word subscribe, the channel and the count |
| RespGrammar.BridgeMessage | internal/api/dataplane_usage_bridge.go:416-425 | a message is accepted if and only if the bytes spell the word message, a channel and a payload |
| RespGrammar.BridgeSimple | internal/api/dataplane_usage_bridge.go:286-302 | a status is accepted if and only if the bytes are a plus and a line that ends in CR LF |
| RespGrammar.ServerCommand | internal/api/redis_queue_protocol.go:413-485 | the lenient reader returns a command and a position if and only if the bytes in between spell it: lines may lack the CR, words may be lines after + or :, negative lengths read as empty |
| RespIo.ReadBridgeRESPArrayOfBulkStrings | internal/api/dataplane_usage_bridge.go:374-388 | the loop over a buffered reader computes the strict array reader, result, error and position |
| RespIo.ReadBridgeRESPBulkString | internal/api/dataplane_usage_bridge.go:304-331 | the same for bulk strings |
| RespIo.ReadBridgeRESPLine | internal/api/dataplane_usage_bridge.go:275-284 | the same for lines, which must end in CR LF |
| RespIo.ReadBridgeRESPSimpleString | internal/api/dataplane_usage_bridge.go:286-302 | the same for simple strings, an error reply becoming an error |
| RespIo.ReadBridgeNumber | internal/api/dataplane_usage_bridge.go:355-372 | the same for integers, and for the lengths and counts that are read in the same steps |
| RespIo.ReadBridgeRESPArrayHeader | internal/api/dataplane_usage_bridge.go:333-353 | the same for array headers, a negative count being an error |
| RespIo.ReadBridgeRESPPubSubSubscribe | internal/api/dataplane_usage_bridge.go:390-414 | the same for the subscribe ack, with each of its error cases |
| RespIo.ReadBridgeRESPPubSubMessage | internal/api/dataplane_usage_bridge.go:416-425 | the same for a published message |
| RespIo.ReadRESPArray | internal/api/redis_queue_protocol.go:413-438 | the server's loop computes the lenient array reader |
| RespIo.ReadRESPString | internal/api/redis_queue_protocol.go:440-453 | the same for one element: a bulk string, or a line after + or : |
| RespIo.ReadRESPBulkString | internal/api/redis_queue_protocol.go:455-475 | the same for a bulk string, negative lengths reading as empty |
| RespIo.ReadRESPLine | internal/api/redis_queue_protocol.go:477-485 | the same for lines, CR being optional |
| RespIo.WriteRedisBulkString | internal/api/redis_queue_protocol.go:503-526 | sends the whole encoding, or a prefix of it exactly when the writer breaks |
| RespIo.WriteRedisArrayOfBulkStrings | internal/api/redis_queue_protocol.go:528-541 | the same for arrays |
| RespPubSub.WriteRedisPubSubAck | internal/api/redis_queue_protocol.go:559-583 | the same for the replies to SUBSCRIBE and UNSUBSCRIBE |
| RespPubSub.WriteRedisPubSubMessage | internal/api/redis_queue_protocol.go:585-596 | a published message is the array of "message", channel and payload, nil kept |
| RespPubSub.WriteRedisPubSubPong | internal/api/redis_queue_protocol.go:598-606 | a pong is the array of "pong" and payload |
| RespPubSub.HandleRedisSubscriptionCommand | internal/api/redis_queue_protocol.go:312-341 | what each command of a subscriber is answered, and which end the stream |
| RespPubSub.StreamRedisSubscription | internal/api/redis_queue_protocol.go:248-288 | for every sequence of events the stream sends the answers up to the first that closes it, or a prefix when the writer breaks |
| RespPubSub.StreamedPublications | internal/api/redis_queue_protocol.go:260-273 | a subscriber that sends nothing receives exactly the published messages in order |
| RespServed.StreamedIs | internal/api/redis_queue_protocol.go:248-341 | the stream answers, in exact bytes, every event up to the first that ends it, that one included, and nothing after it; UNSUBSCRIBE, QUIT, an unreadable command and a closed side end it, PING and anything else do not |
| RespServed.MessageIs | internal/api/redis_queue_protocol.go:585-596 | the bytes of a published message |
| RespServed.AckIs | internal/api/redis_queue_protocol.go:559-583 | the bytes of the replies to SUBSCRIBE and UNSUBSCRIBE |
| RespServed.PongIs | internal/api/redis_queue_protocol.go:598-606 | the bytes of a pong |
| RespPubSub.WriteBridgeRESPCommand | internal/api/dataplane_usage_bridge.go:259-273 | sends the command in one write; an empty command sends nothing |
| RespPubSub.ReceiveMessages | internal/api/dataplane_usage_bridge.go:176-191 | the loop enqueues what the specification of the loop says and returns its error |
| RespPubSub.SubscribeDataPlaneUsageQueue | internal/api/dataplane_usage_bridge.go:160-192 | the whole subscription: handshake, checks, loop; AUTH is sent, and SUBSCRIBE once it was welcomed; it fails to write only when the connection breaks, and nothing is enqueued then |
| RespBridge.MessagesDelivered | internal/api/dataplane_usage_bridge.go:176-191 | on a stream that ends anywhere among publications the loop enqueues exactly the non-control payloads of the whole messages it got to, in order |
| RespBridge.EndToEnd | internal/api/dataplane_usage_bridge.go:160-192 | fed the OK reply, the ack and any messages as the server writes them, cut anywhere after the ack and cancelled after any number of passes, the bridge enqueues exactly the non-control payloads received, unchanged and in order |
| RespBridge.Delivered | internal/api/dataplane_usage_bridge.go:160-192 | on an unbroken stream every non-control payload arrives, and the run ends with the end of file |
| RespServed.BridgeKeeps | internal/api/dataplane_usage_bridge.go:160-192 | the same in bytes: what is enqueued are, in order, exactly the payloads that are no control text of as many messages as came through whole, or as there were passes for, and whole is as many as fit into what was received |
| RespServed.MixedDelivered | internal/api/dataplane_usage_bridge.go:176-191 | on messages of any channels, cut off anywhere, exactly those of the usage channel that are no control texts are enqueued |
| RespServed.ControlIs | internal/api/dataplane_usage_bridge.go:254-257 | a control message is one of the two texts with any white-space runes around it |
| RespServed.UsageIs | internal/api/dataplane_usage_bridge.go:170-187 | the channels that fold to usage: its letters in any cases, where a long s counts as an s |
| RespServed.ErrorReplyEnds | internal/api/dataplane_usage_bridge.go:161-166 | an error reply to AUTH ends the session with that error and nothing enqueued |
| RespServed.OtherChannelEnds | internal/api/dataplane_usage_bridge.go:170-174 | an ack of another channel ends it with nothing enqueued |
| RespBridge.HandshakeUnderstood | internal/api/redis_queue_protocol.go:381-397 | the server reads back the password and the channel that the bridge sends |
| RespServed.AuthIs | internal/api/dataplane_usage_bridge.go:259-273 | the bytes of the AUTH command |
| RespServed.SubscribeIs | internal/api/dataplane_usage_bridge.go:259-273 | the bytes of the SUBSCRIBE command |
| ClientGuard.GuardedPluginClient.TryAcquire | internal/pluginhost/client_guard.go:32-43 | a call gets the client exactly when it is held and not closed, and is counted exactly then |
| ClientGuard.GuardedPluginClient.Leave | internal/pluginhost/client_guard.go:45-52 | a return is counted, and broadcasts exactly when no call is left |
| ClientGuard.GuardedPluginClient.EnterShutdown | internal/pluginhost/client_guard.go:54-79 | the section up to the first wait or the unlock: it closes the guard, waits exactly when a call is in flight, and takes the client exactly when it is the first and none is |
| ClientGuard.GuardedPluginClient.PassWait | internal/pluginhost/client_guard.go:62-74 | the section from one wait to the next or to the unlock: it waits again exactly when a call is in flight, and takes the client exactly when it is the first and none is |
| ClientGuard.GuardProtocol | internal/pluginhost/client_guard.go:23-79 | over all interleavings: `calls` counts the threads in a call, no thread sleeps while none is, a woken thread does not sleep again, the inner Shutdown starts at most once and only with no call in flight |
| ClientGuard.ClosedForGood | internal/pluginhost/client_guard.go:38-40 | no call enters after `closed` is set |
| ClientGuard.ShutdownIsLast | internal/pluginhost/client_guard.go:68-78 | once the inner Shutdown starts no call is in flight ever again, and it is not started a second time |
| ClientGuard.LastReturnWakes | internal/pluginhost/client_guard.go:45-52 | the last call to return wakes every sleeping Shutdown |
| ClientGuard.EveryoneFinishes | internal/pluginhost/client_guard.go:45-79 | once closed, and when no new calls come, every schedule ends after boundedly many steps with every Shutdown returned and the client shut down exactly once |
| ClientGuard.LaterShutdown | internal/pluginhost/client_guard.go:61-78 | in every run a Shutdown that is not the first, returning at once or after a wait, finds the client shut down if and only if the first is neither woken, nor about to shut the client down, nor at it |
| ClientGuard.LaterReturnsWhen | internal/pluginhost/client_guard.go:61-67 | a later Shutdown returns at once if and only if no call is in flight, and as soon as it is woken |
| ClientGuard.SecondShutdownReturnsEarly | internal/pluginhost/client_guard.go:61-67 | a run in which it returns at once, before the inner Shutdown has started |
| ClientGuard.WokenShutdownReturnsEarly | internal/pluginhost/client_guard.go:61-67 | a run in which it returns after a wait, while the guard still holds the client |
| CallbackContexts.CallbackContextRegistry.AddCleanup | internal/pluginhost/callback_contexts.go:69-85 | the cleanup is kept in the open context, or run at once when there is none, or ignored for an empty id |
| CallbackContexts.CallbackContextRegistry.NextId | internal/pluginhost/callback_contexts.go:36 | each id is the decimal of a counter that goes up by one |
| CallbackContexts.CallbackContextRegistry.OpenContext | internal/pluginhost/callback_contexts.go:37-39 | the context is there, without cleanups, and no other changes |
| CallbackContexts.Closer.Close | internal/pluginhost/callback_contexts.go:42-56 | the first call removes the context and runs its cleanups in the order they were added; later calls do nothing |
| CallbackContexts.ExactlyOnePlace | internal/pluginhost/callback_contexts.go:27-85 | over all interleavings each cleanup is pending in one open context, or handed to one runner, or has run once; nothing is pending under a closed id |
| CallbackContexts.AllRunOnce | internal/pluginhost/callback_contexts.go:27-85 | when all contexts are closed and all runners are done, every cleanup has run exactly once |
| CallbackContexts.RanForGood | internal/pluginhost/callback_contexts.go:42-85 | a cleanup that has run keeps its place in the order for ever, runs never again, and waits in no context and with no runner |
| CallbackContexts.IdsKeep | internal/pluginhost/callback_contexts.go:36-39 | ids are never given out twice, and the registry holds exactly the open ones |
| HostLaws.ClientsConserved | internal/pluginhost/host.go:182-508 | over every run, with load failures and hot reloads, each installed client is in exactly one of loaded, retired, or handed to shutdown, is handed over at most once, and no published record calls a client already handed over |
| HostLaws.OnlyLoadedRegister | internal/pluginhost/adapters.go:717-744 | in any interleaving only loaded plugins have model registrations or providers |
| HostLaws.UnloadSticks | internal/pluginhost/host.go:391-418 | after an unload only installing the plugin again brings it back: no commit computed before can |
| HostLaws.IdentityAgrees | internal/pluginhost/host.go:510-590 | at every moment the identity check holds if and only if the published snapshot has a record with that trimmed id, that path and that trimmed version |
| HostLaws.FallbacksSelectable | internal/pluginhost/host.go:338-376 | the files found stay in front, and each one added is of another plugin, at the path and trimmed version it is loaded from |
| HostLaws.FallbacksComplete | internal/pluginhost/host.go:338-376 | a plugin has a file afterwards if and only if it had one, or it is wanted, not switched off and loaded |
| PluginHost.PluginHost.ApplyConfig | internal/pluginhost/host.go:182-322 | a run of the host's sections from Begin to Finish, or the one that switches plugins off and empties the snapshot and the identity maps; said of the fields, a plugin is published if and only if its item is on, it registers, it is loaded at that path or opens, and it is not fused unless it moves there, for a file found or else for the path it is loaded from; each record says its file, the item's priority and the client in use, priorities fall and ids rise among equal ones; a client is installed for exactly the files found that need one and open, the client it replaces is retired, and every other plugin, switched-off ones included, keeps what it had |
| HostApply.CollectedAre | internal/pluginhost/host.go:223-302 | whatever the passes of the loop load, replace or skip, the records collected are those of exactly these files, judged by the host as it was before the first pass |
| HostApply.PublishedIds | internal/pluginhost/host.go:223-311 | a plugin has a record in the published snapshot if and only if one of its files meets these conditions |
| HostFields.PublishedExactly | internal/pluginhost/host.go:213-311 | which plugins are published, said of the host's fields, the items, the files found and the plugins wanted |
| HostFields.RecordsFit | internal/pluginhost/host.go:290-311 | what every published record says |
| HostFields.InstalledExactly | internal/pluginhost/host.go:240-270 | after any number of passes each file has led to a new client exactly when it needed one and opened; all other plugins keep their clients, models and retired clients |
| HostFields.FallbackFiles | internal/pluginhost/host.go:338-376 | gone through are exactly the files found, and for each wanted, loaded plugin that is not switched off and has none its loaded path and trimmed version |
| PluginHost.PluginHost.ApplyFile | internal/pluginhost/host.go:223-302 | one pass of its loop: a new client if and only if the item is on, the plugin is not at this path, opens, and is not fused unless it moves, the replaced client then being retired; every other plugin is as before; a record, with the priority and the client, if and only if it also registers |
| PluginHost.PluginHost.InstallLoaded | internal/pluginhost/host.go:252-270 | the section that installs a client, with the next number, and retires and forgets the one it replaces |
| PluginHost.PluginHost.WithLoadedPluginFallbacks | internal/pluginhost/host.go:338-376 | which loaded plugins stay at their file when none was selected |
| PluginHost.PluginHost.UnloadPlugin | internal/pluginhost/host.go:379-429 | succeeds if and only if the plugin is loaded or has retired clients; then it is gone from every map, the other plugins' records are left in order in a new snapshot, and exactly its clients are shut down, the loaded one first; otherwise nothing changes |
| PluginHost.PluginHost.ShutdownAll | internal/pluginhost/host.go:432-493 | empties the maps and the snapshot, keeps the fused marks, and shuts down once every client that is loaded or retired, and no other |
| PluginHost.PluginHost.PluginIdentityCurrent | internal/pluginhost/host.go:514-534 | the check against the three identity maps |
| PluginHost.PluginHost.RebuildActivePluginMaps | internal/pluginhost/host.go:576-590 | the identity maps after a rebuild, the last record winning |
| HostLaws.RebuiltFiles | internal/pluginhost/host.go:576-590 | a rebuild files exactly the records it is given |
| PluginHost.PluginHost.SnapshotWithoutPlugin | internal/pluginhost/host.go:536-550 | exactly the records of the other plugins, in order |
| PluginHost.PluginHost.RegisterModels | internal/pluginhost/adapters.go:240-314 | afterwards exactly the plugins that are published and answer have a registration, which is their answer, and the provider it names; nothing else changes |
| PluginHost.PluginHost.CommitModelClients | internal/pluginhost/adapters.go:717-736 | the optimistic commit: if the snapshot is still the published one both maps hold exactly what was gathered, otherwise nothing changes |
| HostCommits.GatheredIs | internal/pluginhost/adapters.go:240-314 | in any interleaving a thread holds exactly the answers it was given since it last read the snapshot, and the snapshot as it was then |
| HostCommits.CommitExactly | internal/pluginhost/adapters.go:717-736 | in any interleaving a commit is all or nothing: if the snapshot that the thread read is still published both maps hold exactly those answers, otherwise the host is unchanged |
| PluginHost.PluginHost.ActiveRecords | internal/pluginhost/snapshot.go:49-60 | exactly the records of the snapshot that are current, in order |
| RecordOrder.SortRecords | internal/pluginhost/snapshot.go:133-140 | a permutation in which priorities fall and, among equal ones, ids rise byte by byte |
| Executors.DecideExecutors | internal/pluginhost/adapters.go:757-850 | the two passes: what each record claims and what is planned, exactly, as the two rows that follow say |
| Executors.FirstPassExactly | internal/pluginhost/adapters.go:774-809 | a record that names a provider nobody else serves and no earlier record has claimed claims, in its order, exactly its models whose trimmed id is not blank, has no native executor, was not claimed by an earlier record and was not listed before; any other record claims none |
| Executors.SecondPassExactly | internal/pluginhost/adapters.go:816-850 | the plan has, in the order of the records, an executor for exactly those that are the first to compete for their provider while nobody else serves it, and a client with all its claimed models for exactly those of them that claimed any |
| Executors.FirstPassOk | internal/pluginhost/adapters.go:774-809 | claims of different plugins have no trimmed model id in common, and none of them has a native executor |
| Executors.PlannedExecutors | internal/pluginhost/adapters.go:816-840 | an executor is planned if and only if its record is the first to compete for the provider and nobody else serves it |
| Executors.PlannedClients | internal/pluginhost/adapters.go:826-849 | claimed models are registered if and only if their record is the first to compete for its provider and nobody else serves it |
| Executors.ExecutorClaims | internal/pluginhost/adapters.go:757-852 | the committed model clients have distinct providers, disjoint trimmed model ids, no model with a native executor when it was claimed, and each comes with an executor of the same plugin and provider |
| Executors.ClaimedNotRegistered | internal/pluginhost/adapters.go:816-832 | a run in which a claimed model is not registered |
| Executors.CommitServes | internal/pluginhost/adapters.go:869-904 | the host's executors afterwards are the planned ones and those its books had lost, and the books are right if and only if the latter are planned; executors of others are untouched if and only if none of them serves a planned provider |
| Executors.NativesReplaced | internal/pluginhost/adapters.go:816-893 | an executor of somebody else goes if and only if it serves, at the commit, a provider for which the second pass saw nobody |
| Executors.NativesStay | internal/pluginhost/adapters.go:816-893 | no native executor is removed when what the second pass saw is still so |
| Executors.NativeReplaced | internal/pluginhost/adapters.go:832-893 | a run in which a native executor is replaced |
| Executors.OrphanStays | internal/pluginhost/host.go:476 | an executor that the host has at ShutdownAll stays registered through any number of later commits that do not plan its provider |
| Executors.ExecutorBoard.RegisterExecutors | internal/pluginhost/adapters.go:757-916 | the whole operation, with claims and plan as above: if the snapshot is still the published one the manager has exactly the planned executors and, of the others, all but those of the last commit, and the model registry likewise the planned clients with all their claimed models; otherwise nothing changes; books that were right stay right, and are right after a commit if and only if everything they had lost is planned; no native executor goes when what the second pass saw is still so |
| Executors.ExecutorBoard.Commit | internal/pluginhost/adapters.go:858-905 | each planned provider is served by the last executor planned for it, each planned client is registered with its models, stale ones of this host go, all else stays; unchanged when the snapshot is no longer the published one |
| Executors.ExecutorBoard.ShutdownAll | internal/pluginhost/host.go:470-486 | the books are emptied and the manager keeps every executor, so the books are right if and only if the host had none |
| Executors.AppendedIds | internal/pluginhost/adapters.go:1015-1040 | a provider's model list never repeats a trimmed id and ends up with every id that is not blank |
| Executors.AppendModelsForProvider | internal/pluginhost/adapters.go:1015-1040 | the loop with its `seen` table appends to the provider's list, in order, exactly the models whose trimmed id is not blank, not in the list and not listed before, and leaves every other provider alone |
| SignatureCache.Cache.Store | internal/cache/signature_cache.go:123-155 | what is stored and what is refused |
| SignatureCache.Cache.Get | internal/cache/signature_cache.go:168-236 | what a lookup answers, with sliding refresh and the gemini sentinel, and what it leaves |
| SignatureCache.Cache.Delete | internal/cache/signature_cache.go:252-278 | one entry goes, and its bucket when that was the last |
| SignatureCache.Cache.Purge | internal/cache/signature_cache.go:92-110 | exactly the expired entries go, and the buckets that this empties |
| SignatureCache.Cache.Clear | internal/cache/signature_cache.go:239-249 | one bucket goes, or all |
| SignatureCache.LookupsAgree | internal/cache/signature_cache.go:92-278 | every lookup of every run answers what a plain timestamped record of the key says |
| SignatureCache.HitExactly | internal/cache/signature_cache.go:123-236 | a lookup answers the signature of an earlier store of that group and text if and only if nothing replaced or removed it since and at every lookup since, this one included, it was last touched three hours ago at most; otherwise it answers that there is none |
| SignatureCache.GroupIs | internal/cache/signature_cache.go:285-294 | which models share their signatures |
| SignatureCache.PurgeUnobservable | internal/cache/signature_cache.go:92-236 | inserting purges anywhere in a run changes no answer of any other operation |
| ReplayCache.Cache.Store | internal/cache/codex_reasoning_replay_cache.go:67-106 | it stores, under the pair's key and with the time, the items that normalise, in their order, and nothing when the pair or all items are unusable; when that takes the cache over 10240 entries exactly 128 go, none of them more recent than one that stays |
| ReplayCache.Cache.EvictOldest | internal/cache/codex_reasoning_replay_cache.go:306-327 | exactly `count` entries go, each at most as recent as every entry left |
| ReplayCache.Cache.NormalizeItems | internal/cache/codex_reasoning_replay_cache.go:218-227 | the result has, in their order, exactly the values of the items that normalise |
| ReplayCache.Cache.Get | internal/cache/codex_reasoning_replay_cache.go:127-166 | what a lookup answers and leaves |
| ReplayCache.Cache.Delete | internal/cache/codex_reasoning_replay_cache.go:177-194 | the entry of that key goes |
| ReplayCache.Cache.Purge | internal/cache/codex_reasoning_replay_cache.go:329-337 | exactly the expired entries go |
| ReplayCache.SizeBounded | internal/cache/codex_reasoning_replay_cache.go:98-104 | between operations the cache never holds more than 10240 entries |
| ReplayCache.LookupsAgree | internal/cache/codex_reasoning_replay_cache.go:94-194 | every lookup of every run answers what a plain timestamped record of the key says |
| ReplayCache.HitIsLastStore | internal/cache/codex_reasoning_replay_cache.go:94-166 | a hit returns exactly what the last store of that key, not removed since, kept, item by item in order, never one idle longer than the TTL |
| ReplayCache.HitExactly | internal/cache/codex_reasoning_replay_cache.go:94-166 | a lookup hits if and only if some earlier store of its key was not replaced, removed or evicted since and at every lookup since, this one included, was last touched an hour ago at most; it then returns, in order, exactly the items of that store that normalise |
| ReplayCache.OwnEvictionInRuns | internal/cache/codex_reasoning_replay_cache.go:98-104 | after any run a store can evict its own entry if and only if it is accepted, takes the cache over its limit, and finds fewer entries than a batch that are older than itself |
| ReplayCache.OwnEvictionHappens | internal/cache/codex_reasoning_replay_cache.go:98-104 | a legal run of 10241 stores at one moment whose last store evicts its own entry |
| ReplayCache.OwnEvictionIsATie | internal/cache/codex_reasoning_replay_cache.go:102-104 | when a store evicts its own entry everything left has the same time |
| ReplayCache.SharedKeys | internal/cache/codex_reasoning_replay_cache.go:203-212 | two pairs share a key if and only if their trimmed parts are equal or one trimmed model goes on where the other ends with a NUL, its session being the end of the other's |
| ReplayCache.KeyInjective | internal/cache/codex_reasoning_replay_cache.go:203-212 | trimmed pairs of NUL-free models and sessions have distinct keys |
| ReplayCache.KeyCollision | internal/cache/codex_reasoning_replay_cache.go:211 | two different pairs with the same key, one model holding a NUL |
| LogText.TrackedIsTrailing | internal/logging/request_logger.go:1106-1118 | for every chunking the tracker's count is the number of trailing newlines of the whole stream |
| LogText.BodyEnds | internal/logging/request_logger.go:1048-1079 | the request body section ends with at least three newlines, whatever the body |
| LogText.SectionsEnd | internal/logging/request_logger.go:1179-1252 | every section that is written ends with at least three newlines |
| LogText.SourceIsSection | internal/logging/request_logger.go:1208-1233 | a section from a source is the section of its merged bytes if and only if these are not empty and do not start with the prefix |
| LogText.MergedIsJoin | internal/logging/request_logger.go:209-244 | the merged bytes are the parts that still exist, joined by newlines |
| LogLaws.PartsAre | internal/logging/request_logger.go:209-244 | the parts are the contents of exactly the recorded files that still exist, in order |
| LogLaws.PartIs | internal/logging/request_logger.go:1159-1177 | a part is its trimmed data and one line feed |
| LogLaws.SectionIs | internal/logging/request_logger.go:1179-1252 | a section is its header, time and payload, the payload alone when it starts with the prefix, and line feeds up to three; the part of a source always has its header, a preformatted one never |
| LogLaws.BodyIs | internal/logging/request_logger.go:1048-1079 | the bytes of the body section, with two line feeds when there is no body |
| LogLaws.InfoIs | internal/logging/request_logger.go:1000-1042 | the bytes of the request lines, the transports only when they are not blank |
| LogLaws.HeadersJoin | internal/logging/request_logger.go:1032-1039 | the header lines of two lists of headers are those of the one and then of the other |
| LogLaws.HeaderIs | internal/logging/request_logger.go:1032-1039 | the line of one value of one header |
| LogWriter.CountTrailingNewlinesBytes | internal/logging/request_logger.go:1081-1090 | the count of trailing newlines |
| LogWriter.WriteSectionSpacing | internal/logging/request_logger.go:1092-1099 | adds what is missing to three newlines |
| LogWriter.Tracker.Write | internal/logging/request_logger.go:1106-1118 | also after short writes the count is that of what got through |
| LogWriter.Tracker.CopyFrom | internal/logging/request_logger.go:1058-1066 | copying in chunks of any size passes the whole content, or a prefix when the writer breaks, and keeps the count right |
| LogWriter.FileBodySource.CreatePart | internal/logging/request_logger.go:106-125 | a new empty part at the end, unless the source was cleaned or the file cannot be made |
| LogWriter.FileBodySource.AppendPart | internal/logging/request_logger.go:128-144 | one part with the trimmed text and a final newline; white space alone adds none |
| LogWriter.FileBodySource.AppendBytes | internal/logging/request_logger.go:147-184 | appends to the last part, or makes a first one, and refuses after a cleanup |
| LogWriter.FileBodySource.WriteTo | internal/logging/request_logger.go:209-244 | sends the merged parts, or a prefix when the writer breaks or a part cannot be opened, and fails only then |
| LogWriter.FileBodySource.Cleanup | internal/logging/request_logger.go:256-284 | exactly the source's parts are gone and it stays empty; a second call does nothing |
| LogWriter.WriteAPISection | internal/logging/request_logger.go:1179-1206 | sends the section of a payload, or a prefix exactly when a write fails, which is then the last one |
| LogWriter.WriteAPISectionWithSource | internal/logging/request_logger.go:1208-1233 | sends the payload's section, then the source's |
| LogWriter.WritePreformattedAPISectionWithSource | internal/logging/request_logger.go:1235-1252 | the same without a header of its own for the source |
| LogWriter.StreamedEqualsInMemory | internal/logging/request_logger.go:1208-1233 | with no payload the streamed section equals `writeAPISection` on the merged bytes under exactly that condition |
| LogWriter.WriteRequestInfoWithBody | internal/logging/request_logger.go:989-1079 | a body from a file is logged byte for byte like the same body from memory, and the log then ends with at least three newlines |
| LogWriter.WriteRequestBody | internal/logging/request_logger.go:1048-1079 | the same for the body section alone |

## Left out

- Text.ToLower: lower- and upper-casing outside ASCII, in identities, channel names and provider names.
- YAML text parsing and printing; nil children, which the decoder never makes, and aliases in the generated config, which the encoder never writes.
- YamlHeap.NodesStructurallyEqual: what two aliases point to is not compared, since an item of src has none.
- `removeMapKey`, `pruneMappingToGeneratedKeys`, the removal of legacy sections and the normalisation of collection styles around the merge.
- RespIo.Reader.ReadFull: allocation of a buffer of a huge declared length, which in Go can fail before anything is read; here such a read just meets the end of file.
- RespIo.ReadRESPArray, RespIo.ReadBridgeRESPArrayOfBulkStrings: allocation of a slice of a huge declared count, at which Go can panic; here the elements are read until the stream ends.
- Nil readers, writers, connections, hosts and clients, which every Go function checks first.
- Connection deadlines, the HTTP fallback poll, the session's login state and the LPOP and RPOP commands of the server.
- The bridge's clock and context: that a context is done after some number of checks is a parameter.
- CallbackContexts.Reserve: runs of 2^64 opened contexts, after which ids would repeat, are excluded from the interleavings.
- The context value, plugin id and lookup functions of a callback context.
- PluginHost.PluginHost.ApplyConfig: `filepath.Clean` is not modelled; paths are kept in cleaned form, the only form that is compared. Priorities and versions are data; management and resource routes, command-line flags, logging and thinking providers are not modelled.
- `loadedPlugin` is kept as a value in the maps rather than as a shared object; only its version changes after it is loaded.
- PluginHost.PluginHost.RegisterModels: what a plugin answers is a parameter; the clients that it registers with the model registry outside the mutex are not modelled.
- Executors.ExecutorBoard.Commit: the model registry is updated outside the mutex after the commit, here as part of it; other users of the registry are not modelled; `providerModels` is modelled by `AppendModelsForProvider` alone.
- Reads of a record by the two passes of RegisterExecutors are taken as one observation per record and pass.
- Plugin RPC, dynamic libraries and recovered panics: a load or a registration succeeds or fails, and a plugin can be fused at any moment.
- Concurrent use of the caches: between the removal of an empty bucket and a store that still holds it an entry can be lost; the model takes operations one at a time.
- Home-mode key-value branches, and the antigravity and xai replay caches, which repeat the codex store.
- JSON normalisation of replay items and hashing of texts are arbitrary functions.
- Saturation of `time.Duration` for clocks more than 292 years apart.
- The order in which headers of a map are logged is a parameter, and so are masked header values and formatted times.
- LogWriter.FileBodySource.CreatePart: the names that the file system makes up are parameters, required to be new; directories are not modelled. What can be made, written and opened is fixed during one call.
- LogWriter.FileBodySource.AppendPart: how much of a part a failed write has left in its file.
- Response sections, API error sections, websocket transport inference and file names of the log.
