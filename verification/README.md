# Model of a meshed game server

This project models the parts of the server in which several pieces of state have to agree over
every run: the voice channel's encryption, the resource archives, the interest manager, the
replication of entity state, the zone mesh and its queues. Each part is a Dafny module beside the
code it stands for; methods and classes carry the code's own loops and fields, and each is proved
against a specification function about which the theorems are stated.

| module | models |
|---|---|
| `Ocb2`, `CryptState` | voice packets: OCB2 over an abstract block permutation, and the receiver that rebuilds a 128-bit counter from one byte |
| `PackTree`, `PackFormat` | RPF2 archives: the directory tree, its flattening by a worklist, the back-patched file, and a reader that undoes it |
| `SpatialIndex`, `Interest` | the per-client interest tick: grid, priorities, byte budget, scope with hysteresis |
| `EntityModel`, `EntityManager`, `Pipeline`, `StateAggregator`, `Replication` | dirty queue, batches, aggregated world, per-client deltas, client replica |
| `Spatial`, `QuadTree`, `ZoneRegistry` | the zone map and the tree that indexes it |
| `HandoffManager`, `ZoneMesh`, `Handoff` | one player's handoffs between zones, as a state machine over calls that can fail in every way |
| `Rebalance` | routing table and the spreading of a failed zone's players |
| `Forwarder` | the update forwarder with its hold buffers |
| `Pds`, `Voice` | Mumble's variable-length integers and the voice packet walk |
| `StateBag` | the state-bag store and its bounded queues |

`Bytes` holds the shared vocabulary. `dafny verify dfyconfig.toml` verifies the project.

Three promises of the code's own comments do not hold as written; the code is modelled as it is.

- The forwarder's module comment says that no update is lost around a handoff
  (crates/baston-gateway/src/mesh_forward.rs:3-7). A hold that begins while updates are held
  discards them: `Forwarder.SecondHoldLoses`; `Forwarder.LosslessExactly` gives the exact condition.
- A failed confirmation is taken to mean that the player stays
  (crates/baston-zone/src/boundary_loop.rs:344). If only the answer was lost, the route has moved:
  `Handoff.LostAnswerMisroutes`; `Handoff.CrossingExactly` gives the exact condition for one crossing.
- The varint writer is documented as minimal (crates/baston-voice/src/pds.rs:111). The reader also
  accepts one-byte forms of the four highest values: `Pds.WriteIsShortest`, `Pds.ShorterForm`.

One more input on which two sides disagree: an object id that is given to another entity while it is in
a client's view is never created at the client again (`Interest.ReusedIdIsMistaken`);
`Interest.CopiesExactly` gives the exact condition.

Assumptions. Reals stand for floats, clocks and the outcomes of calls are inputs, and each method of
a shared object is one atomic step. `Handoff.Exclusive` says that a zone being handed the player
starts no handoff of its own until the origin is done; `Handoff.HandingBackTooSoon` shows why.
`Handoff.Clean` says that a confirmation or activation that fails had no effect and that rollbacks are
accepted; only the theorems about the route need it. In the replication pipeline no id is spawned
again while its deletion is queued, which `Pipeline.SpawnConsistentExactly` shows to be necessary and
`Pipeline.RespawnTooSoon` to be reachable.
Object ids are distinct within one world snapshot of the interest manager.

## Model

| member | source | states |
|---|---|---|
| `Ocb2.Times2` | crates/baston-voice/src/crypto.rs:29-40 | the byte loop computes the block doubling `Double` |
| `Ocb2.ShiftLeftDoubles` | crates/baston-voice/src/crypto.rs:30-35 | the shift over any number of bytes is multiplication by two of the big-endian value, less the bit that falls off |
| `Ocb2.DoubleIsRfc4493` | crates/baston-voice/src/crypto.rs:28-40 | doubling is that of section 2.3 of RFC 4493: plain doubling when the top bit is clear, otherwise doubling modulo 2^128 followed by the 0x87 reduction |
| `Ocb2.DoubleInjective` | crates/baston-voice/src/crypto.rs:28-40 | distinct offsets stay distinct under doubling |
| `Ocb2.SealedChunk` | crates/baston-voice/src/crypto.rs:104-113 | every block but the last is enciphered between two XORs with the offset doubled once per block, at any position of a message of any length |
| `Ocb2.LengthIsBigEndian` | crates/baston-voice/src/crypto.rs:117-118 | the length block spells the bit length of the last chunk, most significant byte first |
| `Ocb2.SealedTail` | crates/baston-voice/src/crypto.rs:115-126 | byte by byte, the last chunk is combined with the enciphered combination of its bit length and the offset, doubled once per chunk |
| `Ocb2.SealedTag` | crates/baston-voice/src/crypto.rs:115-130 | the tag enciphers, byte by byte, the last offset, its double, and the XOR of all chunks with the last one completed by its pad |
| `Ocb2.OpenedTag` | crates/baston-voice/src/crypto.rs:153-175 | the tag computed when opening is that of the plaintext it opens to |
| `Ocb2.OcbEncrypt` | crates/baston-voice/src/crypto.rs:92-131 | the encryption loop computes `SealUnder`, and the tag that the byte-by-byte formula gives, for every length including empty and partial blocks |
| `Ocb2.OcbDecrypt` | crates/baston-voice/src/crypto.rs:135-176 | the decryption loop computes `OpenUnder`, and the tag that the formula gives for the plaintext |
| `Ocb2.OpenUndoesSeal` | crates/baston-voice/src/crypto.rs:92-176 | for any block permutation, offset, checksum and plaintext length, opening what was sealed gives the plaintext and an equal tag |
| `Ocb2.SealUndoesOpen` | crates/baston-voice/src/crypto.rs:92-176 | the converse: any ciphertext is the sealing of what it opens to, with an equal tag |
| `Ocb2.OcbInverse` | crates/baston-voice/src/crypto.rs:92-176 | under every nonce the mode decrypts what it encrypts |
| `Ocb2.OcbOnto` | crates/baston-voice/src/crypto.rs:92-176 | under every nonce every ciphertext is the encryption of what it decrypts to |
| `CryptState.NonceInjective` | crates/baston-voice/src/crypto.rs:211-226 | packet indices less than 2^128 apart never share a nonce |
| `CryptState.Increment` | crates/baston-voice/src/crypto.rs:213-218 | the carry loop adds one to the little-endian counter from any byte on |
| `CryptState.Decrement` | crates/baston-voice/src/crypto.rs:273-279 | the borrow loop subtracts one from the little-endian counter from any byte on |
| `CryptState.RebuildIv` | crates/baston-voice/src/crypto.rs:240-295 | the branches that rebuild sixteen counter bytes from one give the bytes of the index `Rebuild` names, across carries and borrows, and fail exactly when it does |
| `CryptState.RebuildExactly` | crates/baston-voice/src/crypto.rs:240-295 | the index is rebuilt if and only if it lies at most 29 below or 127 above the receiver's and is not equal to it, or 128 above when the receiver's low byte is below 128; the window is stated in numbers |
| `CryptState.DeliveredExactly` | crates/baston-voice/src/crypto.rs:230-324 | a sender's packet is delivered, with its plaintext, if and only if its index is rebuilt and the replay table does not match it out of order |
| `CryptState.AcceptedExactly` | crates/baston-voice/src/crypto.rs:230-312 | a packet of whatever origin is accepted if and only if it has four bytes, its index is rebuilt from the first and not refused by the table, and the next three are the start of the tag that the rest opens with |
| `CryptState.AcceptedIsGenuine` | crates/baston-voice/src/crypto.rs:303-311 | what is accepted is, byte for byte, the packet that a sender makes for that index and plaintext |
| `CryptState.PacketParts` | crates/baston-voice/src/crypto.rs:219-226 | a packet is the low byte of its index, three bytes of tag, and the ciphertext |
| `CryptState.AcceptKeepsGuard` | crates/baston-voice/src/crypto.rs:297-312 | an accepted index was never accepted before, and recording it overwrites no replay entry still needed |
| `CryptState.RunKeepsGuard` | crates/baston-voice/src/crypto.rs:230-324 | over every run of arbitrary packets, accepted indices are distinct and each one inside the late window is still recorded in the 256-entry table |
| `CryptState.NoIndexAcceptedTwice` | crates/baston-voice/src/crypto.rs:230-324 | no run, with packets lost, reordered, repeated or forged, accepts an index twice |
| `CryptState.AcceptedRange` | crates/baston-voice/src/crypto.rs:230-324 | how far a run can move the high-water mark and where accepted indices lie |
| `CryptState.SharedNonceIsATurnAway` | crates/baston-voice/src/crypto.rs:230-324 | in a run of any length, accepted packets that share a nonce are a whole turn of the 128-bit counter apart |
| `CryptState.NoNonceUsedTwice` | crates/baston-voice/src/crypto.rs:230-324 | no 128-bit nonce is used by two accepted packets of a run too short to wrap the counter |
| `CryptState.AdvanceIsAccounted` | crates/baston-voice/src/crypto.rs:314-323 | over every run the counter advance equals good minus late plus lost; the stored counts are these modulo 2^32 |
| `CryptState.CountsMean` | crates/baston-voice/src/crypto.rs:314-323 | over every run, good counts the accepted packets, late those accepted after a higher index, and the counter is the highest accepted |
| `CryptState.AdvanceFromCounts` | crates/baston-voice/src/crypto.rs:314-323 | as long as none of the three counts wraps, the same holds of the stored counts, wherever they started |
| `CryptState.NextDelivered` | crates/baston-voice/src/crypto.rs:240-245 | the next packet in order is always delivered, whatever the replay table holds |
| `CryptState.InOrderStreamDelivered` | crates/baston-voice/src/crypto.rs:211-324 | an in-order stream is accepted whole: all good, none late, none lost |
| `CryptState.Peer.constructor` | crates/baston-voice/src/crypto.rs:198-209 | counters start at the given bytes, the replay table and the statistics at zero |
| `CryptState.Peer.Encrypt` | crates/baston-voice/src/crypto.rs:211-226 | sends the packet of the next index |
| `CryptState.Peer.Accept` | crates/baston-voice/src/crypto.rs:312-323 | recording an accepted packet moves counter, replay table and statistics as `Receive`, a late packet giving the counter back |
| `CryptState.Peer.Decrypt` | crates/baston-voice/src/crypto.rs:230-324 | counter, replay table and statistics move as the specification `Step`; a refused packet changes nothing; the answer is the decision's plaintext |
| `PackTree.FindAfterInsert` | crates/baston-zone/src/packfile.rs:38-50 | inserting a path makes that path, and no other, find the new data |
| `PackTree.InsertKeepsValid` | crates/baston-zone/src/packfile.rs:38-50 | directories and files stay name-ordered maps at every level |
| `PackTree.BuildTree` | crates/baston-zone/src/packfile.rs:134-142 | the loop over the inputs builds `TreeOf` |
| `PackTree.TreeIsValid` | crates/baston-zone/src/packfile.rs:134-142 | for any inputs the tree is ordered at every level |
| `PackTree.TreeHoldsLastWritten` | crates/baston-zone/src/packfile.rs:134-142 | a path finds the last input written to it after slashes are normalised and leading ones trimmed |
| `PackTree.NormalizeExactly` | crates/baston-zone/src/packfile.rs:136-137 | a path loses its leading slashes of either kind, has every backslash turned, and is otherwise the same |
| `PackTree.FindGoesDown` | crates/baston-zone/src/packfile.rs:38-50 | a path names a directory for each part before a slash, and its file in the last of them |
| `PackTree.LessExactly` | crates/baston-zone/src/packfile.rs:97 | name order: a proper beginning, or smaller at the first byte that differs |
| `PackTree.ChildrenSorted` | crates/baston-zone/src/packfile.rs:90-97 | a directory's children, directories and files together, are in name order |
| `PackTree.WriteBlock` | crates/baston-zone/src/packfile.rs:110-125 | one child block is appended and its directories listed with their places |
| `PackTree.FinishChildren` | crates/baston-zone/src/packfile.rs:86-128 | finishing the pending directories of a block writes, in order, the pre-order tables below them |
| `PackTree.Flatten` | crates/baston-zone/src/packfile.rs:76-130 | the worklist that pops, patches and appends yields the recursive pre-order table |
| `PackTree.TableReadsBack` | crates/baston-zone/src/packfile.rs:76-130 | reading the table from the root entry rebuilds exactly the tree |
| `PackTree.TableIsTiled` | crates/baston-zone/src/packfile.rs:76-130 | child blocks are contiguous, start after their own entry and stay in the table, and every entry but the root lies in exactly one of them |
| `PackFormat.PadTo` | crates/baston-zone/src/packfile.rs:66-71 | zeros up to the next multiple of 2048 |
| `PackFormat.WriteHeader` | crates/baston-zone/src/packfile.rs:145-151 | magic, room for the table size, entry count, padding |
| `PackFormat.WriteRecords` | crates/baston-zone/src/packfile.rs:153-174 | one record an entry, patchable fields zero |
| `PackFormat.WriteNames` | crates/baston-zone/src/packfile.rs:176-196 | names are appended NUL-terminated and each record's name offset is patched without touching any other byte |
| `PackFormat.WriteFile` | crates/baston-zone/src/packfile.rs:205-212 | one file's three fields are patched and its padded data appended, everything else standing |
| `PackFormat.WriteData` | crates/baston-zone/src/packfile.rs:202-214 | all files together give the finished archive |
| `PackFormat.WriteArchive` | crates/baston-zone/src/packfile.rs:145-216 | appending and back-patching yield `Archive`, which is defined without patches |
| `PackFormat.BuildRpf` | crates/baston-zone/src/packfile.rs:133-217 | the archive of the flattened tree of the inputs |
| `PackFormat.ArchiveReadsBack` | crates/baston-zone/src/packfile.rs:133-217 | a reader that starts at the header and the root record rebuilds the tree, every name and every byte, whenever names are NUL-free and offsets below 2^31 |
| `PackFormat.HeaderLayout` | crates/baston-zone/src/packfile.rs:145-151 | the header words of the finished archive in numbers: magic, table size, which is where the data area starts, entry count, two zeros |
| `Bytes.WordIsLittleEndian` | crates/baston-zone/src/packfile.rs:145-150 | archive words are stored least significant byte first |
| `PackFormat.RecordLayout` | crates/baston-zone/src/packfile.rs:153-174 | the words of every record: the second and the fourth are the child count or the file length, the third is the first child with the top bit set or the place where the file's bytes stand |
| `PackFormat.ExtentsDisjoint` | crates/baston-zone/src/packfile.rs:202-214 | data extents are disjoint, in order, behind the table, inside the archive and 2048-aligned |
| `PackFormat.BuiltArchiveReadsBack` | crates/baston-zone/src/packfile.rs:133-217 | for any inputs, the tree read from the built archive finds at every path the last data written there |
| `Spatial.SharedEdgeBelongsToOne` | crates/baston-protocol/src/spatial.rs:48-50 | of two boxes side by side at most one contains a point, shared edges included |
| `Spatial.PointsOf` | crates/baston-protocol/src/spatial.rs:48-50 | minimum edges belong to a box, maximum edges do not |
| `Spatial.IntersectsExactly` | crates/baston-protocol/src/spatial.rs:52-57 | boxes intersect if and only if they share a point |
| `Spatial.WithinExactly` | crates/baston-gateway/src/quadtree.rs:60-65 | a box fits a quadrant if and only if all its points lie in it |
| `Spatial.CenterIsMiddle` | crates/baston-protocol/src/spatial.rs:66-71 | the centre is as far from either edge |
| `QuadTree.InsertBelow` | crates/baston-gateway/src/quadtree.rs:41-72 | insertion, with any splits and re-sinks it causes, adds exactly the item and keeps every item inside the quadrant it is filed under |
| `QuadTree.Resink` | crates/baston-gateway/src/quadtree.rs:45-49 | re-inserting the items of a split leaf loses and duplicates none |
| `QuadTree.RemoveTakesOne` | crates/baston-gateway/src/quadtree.rs:74-83 | removal takes one item of the id, if any is stored anywhere below, and nothing else |
| `QuadTree.CollectCounts` | crates/baston-gateway/src/quadtree.rs:85-113 | a query with pruning finds each matching item exactly as often as it is stored |
| `QuadTree.InsertRepresents` | crates/baston-gateway/src/quadtree.rs:134-137 | a tree that represents a map represents the map with the entry added |
| `QuadTree.RemoveRepresents` | crates/baston-gateway/src/quadtree.rs:139-142 | and with the entry removed; the answer says whether it was there |
| `QuadTree.QueryExact` | crates/baston-gateway/src/quadtree.rs:85-113 | a query lists exactly the ids whose boxes match, each once |
| `QuadTree.QueryInto` | crates/baston-gateway/src/quadtree.rs:85-113 | the recursive push into the output vector appends what `Collect` lists |
| `QuadTree.Index.Insert` | crates/baston-gateway/src/quadtree.rs:134-137 | the tree refines the map with the id re-bound |
| `QuadTree.Index.Remove` | crates/baston-gateway/src/quadtree.rs:139-142 | the tree refines the map without the id |
| `QuadTree.Index.QueryPoint` | crates/baston-gateway/src/quadtree.rs:144-149 | answers if and only if some zone contains the point, and then with such a zone |
| `QuadTree.Index.QueryAabb` | crates/baston-gateway/src/quadtree.rs:151-155 | lists each intersecting zone exactly once |
| `ZoneRegistry.Registry.RegisterZone` | crates/baston-gateway/src/zone_registry.rs:61-101 | map and tree agree after (re-)registration; a zone that cannot be dialled changes neither |
| `ZoneRegistry.Registry.Heartbeat` | crates/baston-gateway/src/zone_registry.rs:105-116 | an unknown zone is told so; a known one keeps its bounds |
| `ZoneRegistry.Registry.EvictSilentZones` | crates/baston-gateway/src/zone_registry.rs:120-145 | exactly the silent zones leave map and tree, each reported once |
| `ZoneRegistry.Registry.RemoveZone` | crates/baston-gateway/src/zone_registry.rs:148-154 | map and tree lose the zone together |
| `ZoneRegistry.Registry.FindZoneForCoords` | crates/baston-gateway/src/zone_registry.rs:157-160 | answers with a registered zone containing the point if and only if there is one |
| `ZoneRegistry.Registry.FindZonesInAabb` | crates/baston-gateway/src/zone_registry.rs:162-164 | lists each registered intersecting zone once |
| `SpatialIndex.Build` | crates/baston-zone/src/interest_ng.rs:146-159 | every cell lists its entities in world order; cells are at least the radius wide |
| `SpatialIndex.ForEachNear` | crates/baston-zone/src/interest_ng.rs:166-177 | the nine cells are visited in the order of the nested loops |
| `SpatialIndex.VisitedOnce` | crates/baston-zone/src/interest_ng.rs:166-177 | no entity is visited twice |
| `SpatialIndex.NearIsVisited` | crates/baston-zone/src/interest_ng.rs:161-177 | no entity within the radius is missed |
| `Interest.SortedUnique` | crates/baston-zone/src/interest_ng.rs:330-331 | priority then id is a total order: the sorted candidates are determined by their set |
| `Interest.OrderDoesNotMatter` | crates/baston-zone/src/interest_ng.rs:241-366 | a tick over any visiting order that covers the relevant entities gives the plan and views of a scan of the whole world |
| `Interest.GridTickIsFullTick` | crates/baston-zone/src/interest_ng.rs:241-366 | so does the tick through the 3x3 grid, for every world, focus and prior view, entities kept only by hysteresis included |
| `Interest.ConcernsIsRelevant` | crates/baston-zone/src/interest_ng.rs:263-278 | which entities a tick is about, in snapshot fields: not the client's own, in its bucket, within the radius or, once in view, the wider one |
| `Interest.PendingExactly` | crates/baston-zone/src/interest_ng.rs:350-361 | pending are exactly the entities that concern the client and were never sent or have a later frame |
| `Interest.SentWasPending` | crates/baston-zone/src/interest_ng.rs:333-363 | every create and sync is for a pending entity, a create for one never sent, a sync for one sent before |
| `Interest.LeftOverIsOutranked` | crates/baston-zone/src/interest_ng.rs:330-344 | a pending entity is left over only when entities of at least its priority were sent before it and left too little of the budget |
| `Interest.ViewAfterTick` | crates/baston-zone/src/interest_ng.rs:298-361 | a sent entity's view is up to date with its priority spent; another keeps what it accrued, up to the ceiling |
| `Interest.RemovesExactly` | crates/baston-zone/src/interest_ng.rs:313-328 | removes are for views that nothing concerning the client has any more, under their last uniqifier; if one stays, the remove budget was used up by lower ids |
| `Interest.RollbackResends` | crates/baston-zone/src/interest_ng.rs:373-400 | a rollback makes everything newer than its frame pending again, a forced re-creation everything |
| `Interest.TickMatchesClient` | crates/baston-zone/src/interest_ng.rs:313-366 | what a tick marks created is what was, less the removes, plus the creates; creates are new, syncs are known, and nothing is created and removed at once |
| `Interest.CreatedAreHeld` | crates/baston-zone/src/interest_ng.rs:313-392 | over every run of ticks and rollbacks with lossless delivery the client holds every entity marked created, and exactly those when nothing was re-created |
| `Interest.PlansFitTheClient` | crates/baston-zone/src/interest_ng.rs:313-392 | in such runs every create is for an id not held, every sync for a held one |
| `Interest.CopiesExactly` | crates/baston-zone/src/interest_ng.rs:298-366 | a tick leaves the client with the entities, by id and uniqifier, that the server takes it to hold if and only if every id in view still names the entity that the client was sent |
| `Interest.CopiesFollow` | crates/baston-zone/src/interest_ng.rs:298-392 | so over every run in which ids keep their entities while in view the client holds exactly those entities |
| `Interest.ReusedIdIsMistaken` | crates/baston-zone/src/interest_ng.rs:298-306 | an id given to another entity while in view: the view passes for created and the client keeps the old entity |
| `Interest.TickWithinBudget` | crates/baston-zone/src/interest_ng.rs:333-363 | a tick stays in its byte budget or consists of one send |
| `Interest.PendingOnlyLeavesBySending` | crates/baston-zone/src/interest_ng.rs:330-363 | with world and focus fixed nothing becomes pending, and what stops being pending was sent |
| `Interest.PendingShrinks` | crates/baston-zone/src/interest_ng.rs:330-363 | a tick with something pending leaves strictly less pending |
| `Interest.AllSentWithin` | crates/baston-zone/src/interest_ng.rs:330-363 | k pending entities are all sent within k ticks |
| `Interest.CollectExits` | crates/baston-zone/src/interest_ng.rs:313-321 | the unseen ids in ascending order |
| `Interest.DropExits` | crates/baston-zone/src/interest_ng.rs:322-328 | the budgeted exits leave the views and are listed as removes; the rest stay for the next tick |
| `Interest.ScanNear` | crates/baston-zone/src/interest_ng.rs:258-311 | the visiting callback updates views and candidates entity by entity |
| `Interest.FillBudget` | crates/baston-zone/src/interest_ng.rs:333-363 | the send loop |
| `Interest.ClientView.TickWithContext` | crates/baston-zone/src/interest_ng.rs:241-366 | the grid tick computes plan and views of the full scan |
| `Interest.ClientView.Rollback` | crates/baston-zone/src/interest_ng.rs:376-383 | one base frame comes down to at most `frame`, the entity is un-created when asked, and nothing else changes |
| `Interest.ClientView.RollbackAll` | crates/baston-zone/src/interest_ng.rs:388-392 | the loop keeps every entity and every other field, and each base frame ends at most `frame`, at its old value or at `frame`, never raised |
| `Interest.ClientView.ForceRecreate` | crates/baston-zone/src/interest_ng.rs:395-400 | un-creates one entity |
| `EntityManager.WriteFields` | crates/baston-zone/src/entity_manager.rs:58-96 | the field-by-field writes give the updated state and flag exactly the fields that differ |
| `EntityManager.UpdatedExactly` | crates/baston-zone/src/entity_manager.rs:58-96 | field by field: the update's value where present, the old one elsewhere, identity, type, model and owner kept, and a flag exactly for each field that differs |
| `EntityManager.MarkExactly` | crates/baston-zone/src/entity_manager.rs:125-145 | queueing forgets no earlier flag, keeps a deletion as it is, and touches no other entity |
| `EntityManager.OwnedExactly` | crates/baston-zone/src/entity_manager.rs:111-123 | a change of owner touches nothing else and is queued as EXTRA |
| `EntityManager.Manager.Mark` | crates/baston-zone/src/entity_manager.rs:125-145 | flags accumulate per entity, and a deletion marker is never overwritten |
| `EntityManager.Manager.SpawnEntity` | crates/baston-zone/src/entity_manager.rs:27-31 | stores the entity and queues it whole |
| `EntityManager.Manager.RemoveEntity` | crates/baston-zone/src/entity_manager.rs:34-49 | drops the entity and queues a deletion that wins over pending changes; unknown ids change nothing |
| `EntityManager.Manager.UpdateEntity` | crates/baston-zone/src/entity_manager.rs:53-107 | each field ends at the update's value or its old one, the flags returned name exactly the fields that differ, and the change is queued if and only if there is one |
| `EntityManager.Manager.SetNetworkOwner` | crates/baston-zone/src/entity_manager.rs:111-123 | queues only a real change of owner |
| `EntityManager.Manager.FlushDirty` | crates/baston-zone/src/entity_manager.rs:150-156 | empties the queue into a batch that lists every entry once |
| `Pipeline.MergeBatch` | crates/baston-gateway/src/state_aggregator.rs:174-183 | the merge loop computes `Merge` |
| `Pipeline.MergeIsOverlay` | crates/baston-gateway/src/state_aggregator.rs:174-183 | a flushed batch merges to the same world in whatever order its entries are listed |
| `Pipeline.StepKeepsConsistent` | crates/baston-zone/src/entity_manager.rs:27-156 | every step keeps: aggregated world, then batches in flight, then the dirty queue, equals the zone's entities |
| `Pipeline.SpawnConsistentExactly` | crates/baston-zone/src/entity_manager.rs:125-133 | spawning keeps that invariant if and only if the id has no deletion marker queued |
| `Pipeline.RespawnTooSoon` | crates/baston-zone/src/entity_manager.rs:125-133 | spawning, removing and spawning again before a flush loses the entity downstream |
| `Pipeline.StepKeepsHonest` | crates/baston-zone/src/entity_manager.rs:53-147 | a field without its dirty flag is unchanged since the last flush |
| `Pipeline.EveryRunConsistent` | crates/baston-zone/src/entity_manager.rs:27-156 | both hold in every reachable state |
| `Pipeline.QuietMeansEqual` | crates/baston-gateway/src/state_aggregator.rs:174-183 | with nothing queued or in flight the gateway's world is the zone's |
| `StateAggregator.DeltaExact` | crates/baston-gateway/src/state_aggregator.rs:401-426 | patching the baseline with the delta gives the current state if and only if type and model are the same; no delta means no difference |
| `StateAggregator.SendUpdates` | crates/baston-gateway/src/state_aggregator.rs:341-383 | the loop over candidates creates, updates or holds back each visible entity by its baseline and rate |
| `StateAggregator.DropUnseen` | crates/baston-gateway/src/state_aggregator.rs:385-396 | untracks and deletes exactly what is no longer visible |
| `StateAggregator.ComputeClientOps` | crates/baston-gateway/src/state_aggregator.rs:321-397 | one tick's operations and tracker are those of the whole world, whichever covering candidate list is used |
| `StateAggregator.OpsSayExactly` | crates/baston-gateway/src/state_aggregator.rs:344-382 | per entity and in plain fields: nothing of the viewer's own or out of its radius; a full state when new; a delta exactly when 50, 100 or 500 ms have passed for its distance and some field differs |
| `StateAggregator.TrackerSaysExactly` | crates/baston-gateway/src/state_aggregator.rs:344-396 | the tracker keeps exactly the entities in sight, with this tick's time and state where something was sent |
| `StateAggregator.ReplicaFollowsExactly` | crates/baston-gateway/src/state_aggregator.rs:333-397 | applying the operations to the old baselines gives the new ones if and only if no entity sent as a delta changed its kind |
| `StateAggregator.ReplicaFollowsEveryRun` | crates/baston-gateway/src/state_aggregator.rs:333-397 | with kinds fixed per id, the replica equals the tracker's baselines after every run of ticks |
| `StateAggregator.CaughtUpExactly` | crates/baston-gateway/src/state_aggregator.rs:333-397 | a tick leaves the replica equal to the visible part of the world if and only if every visible entity is new, due, or as last sent |
| `Replication.ClientSeesTheZone` | crates/baston-gateway/src/state_aggregator.rs:174-397 | end to end: with nothing queued or on the wire, one tick long enough after the last updates leaves the client with exactly the zone's visible entities |
| `StateAggregator.ExitsAreDeletedOnce` | crates/baston-gateway/src/state_aggregator.rs:385-396 | each scope exit gives exactly one delete, and nothing else does |
| `StateAggregator.SameOps` | crates/baston-gateway/src/state_aggregator.rs:321-397 | two candidate lists give the same operations up to order |
| `StateAggregator.BuildGrid` | crates/baston-gateway/src/state_aggregator.rs:295-307 | each cell holds exactly its entities, cells at least the radius wide |
| `StateAggregator.Candidates` | crates/baston-gateway/src/state_aggregator.rs:310-316 | gathers the nine cells |
| `StateAggregator.GridIsCandidates` | crates/baston-gateway/src/state_aggregator.rs:289-316 | grid candidates are states of the world, none twice, with every visible entity among them |
| `StateAggregator.PushToClient` | crates/baston-gateway/src/state_aggregator.rs:224-254 | through the grid, the operations are those of the whole world |
| `Rebalance.SpreadPlaces` | crates/baston-gateway/src/mesh.rs:161-175 | as many players are placed as the lesser of orphans and free places; a target is found exactly while places remain |
| `Rebalance.SpreadBalances` | crates/baston-gateway/src/mesh.rs:161-175 | no zone is pushed past its capacity, and a zone that received a player ends at most one above every zone with room left |
| `Rebalance.SpreadIsOptimal` | crates/baston-gateway/src/mesh.rs:139-176 | any other placement of as many players loads some receiving zone at least as much |
| `Rebalance.PlanRebalance` | crates/baston-gateway/src/mesh.rs:139-176 | a prefix of the orphans is placed, each with the least loaded zone that has room, and exactly the rest reported |
| `Rebalance.MoveCounts` | crates/baston-gateway/src/connection_router.rs:40-50 | moving a player into a zone adds one to that zone's count only |
| `Rebalance.CommitCounts` | crates/baston-gateway/src/mesh.rs:161-175 | committing the assignments one by one, the routing table counts out to the planned tallies and nobody else moves |
| `Rebalance.HandleZoneFailure` | crates/baston-gateway/src/mesh.rs:97-131 | nobody stays routed to the failed zone, everybody else keeps their zone, only players without room are dropped, and the survivors hold what the spreading gives them |
| `Rebalance.Router.Assign` | crates/baston-gateway/src/connection_router.rs:29-31 | routes one player |
| `Rebalance.Router.CommitHandoff` | crates/baston-gateway/src/connection_router.rs:40-50 | re-routes one player and returns the old zone |
| `Rebalance.Router.CommitBatch` | crates/baston-gateway/src/connection_router.rs:58-75 | commits the assignments in order |
| `Rebalance.Router.Remove` | crates/baston-gateway/src/connection_router.rs:77-79 | forgets one player and returns its zone |
| `Rebalance.Router.PlayersInZone` | crates/baston-gateway/src/connection_router.rs:82-88 | lists the zone's players, each once |
| `Rebalance.Router.CountInZone` | crates/baston-gateway/src/connection_router.rs:98-103 | the scan counts each player routed to the zone once: the size of the set of such players |
| `HandoffManager.PruningIsHarmless` | crates/baston-zone/src/handoff_manager.rs:187-197 | sweeping lifts no cooldown and never sweeps a crossing from under itself |
| `HandoffManager.NextWaitsForCooldown` | crates/baston-zone/src/handoff_manager.rs:60-78 | after a handoff that ended, the next is admitted if and only if the cooldown has run out, swept in between or not |
| `HandoffManager.RequestsGoStale` | crates/baston-zone/src/handoff_manager.rs:187-197 | an unanswered request blocks the next until it is swept after four seconds; an answered one is never swept |
| `HandoffManager.Manager.BeginRequest` | crates/baston-zone/src/handoff_manager.rs:70-85 | asks only when nothing is pending and no cooldown runs |
| `HandoffManager.Manager.FinishRequest` | crates/baston-zone/src/handoff_manager.rs:101-137 | a ready answer is kept; a refusal, error or timeout cancels |
| `HandoffManager.Manager.Cancel` | crates/baston-zone/src/handoff_manager.rs:201-205 | a pending handoff ends and starts the cooldown; otherwise nothing happens |
| `HandoffManager.Manager.BeginConfirm` | crates/baston-zone/src/handoff_manager.rs:210-219 | only a ready handoff starts transferring |
| `HandoffManager.Manager.FinishConfirm` | crates/baston-zone/src/handoff_manager.rs:228-255 | success ends it with a cooldown, anything else cancels |
| `HandoffManager.Manager.PruneExpired` | crates/baston-zone/src/handoff_manager.rs:187-197 | every player's slot is swept and only stale requests and cooldowns go |
| `HandoffManager.Manager.Forget` | crates/baston-zone/src/handoff_manager.rs:176-179 | nothing is left of the player |
| `ZoneMesh.Mesh.PrepareForPlayer` | crates/baston-zone/src/mesh.rs:265-288 | a valid snapshot replaces the ghost; a malformed or mismatched one changes nothing |
| `ZoneMesh.Mesh.ActivatePlayer` | crates/baston-zone/src/mesh.rs:290-315 | a pending ghost wakes once and leaves a marker; a second call only drops the marker |
| `ZoneMesh.Mesh.ReleasePlayer` | crates/baston-zone/src/mesh.rs:317-331 | the ghost goes, the handoff manager forgets the player and nobody else, and the release hook is called for it |
| `ZoneMesh.Mesh.ExpireStaleGhosts` | crates/baston-zone/src/mesh.rs:240-252 | exactly pending ghosts older than the limit go |
| `Handoff.StepSafe` | crates/baston-zone/src/boundary_loop.rs:339-410 | every step of the protocol keeps: some zone is live, and a zone that another has heard to be awake is live and is not that other zone |
| `Handoff.RouteMovesByCommit` | crates/baston-gateway/src/mesh.rs:433-463 | the route moves only by a commit that is carried out, to a registered zone; an unregistered one is refused and nothing moves |
| `Handoff.LiveChangesBy` | crates/baston-zone/src/mesh.rs:290-315 | a zone comes alive only by waking a ghost pending there, and lets go only after the other's waking was accepted |
| `Handoff.GhostChangesBy` | crates/baston-zone/src/mesh.rs:240-288 | a ghost appears only by a preparation at a registered zone other than the origin, and goes only by activation or once older than 30 s |
| `Handoff.TaskChangesBy` | crates/baston-zone/src/boundary_loop.rs:339-410 | each move of a zone's crossing task has its one cause: cooldown run out, ghost ready, commit accepted, waking accepted, or not |
| `Handoff.SomeZoneIsAlwaysLive` | crates/baston-zone/src/boundary_loop.rs:339-410 | in every interleaving, with calls refused, lost, late or carried out unheard, some zone holds the player live |
| `Handoff.StepOwned` | crates/baston-zone/src/boundary_loop.rs:339-410 | when failed calls did nothing and rollbacks are accepted, how far the owner's handoff has got says at every step which zones are live and where the route points |
| `Handoff.AtRestRouteNamesTheLiveZone` | crates/baston-zone/src/boundary_loop.rs:339-410 | over any number of such handoffs, whenever none is under way the route names the single live zone |
| `Handoff.CrossingExactly` | crates/baston-zone/src/handoff_manager.rs:150-255 | one crossing can leave only seven traces, and once settled the route names the single live zone if and only if the new route was never committed, or the origin let go, or the target was never woken and the rollback was carried out |
| `Handoff.HandoffCompletes` | crates/baston-zone/src/boundary_loop.rs:339-371 | a handoff whose calls all go through moves the player and its route |
| `Handoff.HandingBackTooSoon` | crates/baston-zone/src/boundary_loop.rs:345-365 | without waiting for the origin, a target that hands the player back leaves it live nowhere, even when every call succeeds |
| `Handoff.LostAnswerMisroutes` | crates/baston-zone/src/handoff_manager.rs:228-255 | a commit whose answer alone is lost leaves the route naming a zone that was never woken |
| `Forwarder.StepLine` | crates/baston-gateway/src/mesh_forward.rs:166-225 | what each message does to a player's published and held updates taken together |
| `Forwarder.HoldStands` | crates/baston-gateway/src/mesh_forward.rs:185-223 | the loop keeps a buffer exactly while the messages leave a hold standing, and something in it exactly when something came since |
| `Forwarder.LineFollowsReceived` | crates/baston-gateway/src/mesh_forward.rs:154-226 | in every run, published then held updates are an in-order subsequence of those received, short of them by exactly what was thrown away |
| `Forwarder.LosslessExactly` | crates/baston-gateway/src/mesh_forward.rs:200-223 | they equal those received if and only if no hold began and no drop arrived after an update less than 50 ms into a hold that still stood: a condition on the messages and their times alone |
| `Forwarder.FlushPublishesAll` | crates/baston-gateway/src/mesh_forward.rs:210-218 | after a flush of such a run everything received is published |
| `Forwarder.SecondHoldLoses` | crates/baston-gateway/src/mesh_forward.rs:200-201 | a second hold over held updates loses them |
| `Forwarder.Shard.Handle` | crates/baston-gateway/src/mesh_forward.rs:166-225 | one message changes its player's lane as specified and no other lane |
| `Forwarder.Shard.Run` | crates/baston-gateway/src/mesh_forward.rs:154-226 | the loop over all messages computes every player's lane |
| `Pds.LeadExactly` | crates/baston-voice/src/pds.rs:57-92 | how many bytes follow each leading byte and which of its bits belong to the value |
| `Pds.ReadExactly` | crates/baston-voice/src/pds.rs:55-103 | what is read behind each leading byte, and that a string cut short reads as nothing |
| `Pds.ReadNegative` | crates/baston-voice/src/pds.rs:93-102 | a negative number counts as zero and keeps the stream aligned; the four smallest read as 64 bits |
| `Pds.ReadIsLocal` | crates/baston-voice/src/pds.rs:55-103 | reading takes at least one byte, stays inside, gives 64 bits and looks at nothing behind what it takes |
| `Pds.ReadUndoesWrite` | crates/baston-voice/src/pds.rs:55-134 | for every 64-bit value and any trailing bytes, reading gives back the value and its length |
| `Pds.WriteIsShortest` | crates/baston-voice/src/pds.rs:112-134 | no readable form of a value is shorter than the written one, except the one-byte forms of the four highest values |
| `Pds.WrittenForms` | crates/baston-voice/src/pds.rs:112-134 | the bytes on the wire for each size: prefix, then the value most significant byte first |
| `Pds.WordIsBigEndian` | crates/baston-voice/src/voice.rs:145-151 | the words of a position are read most significant byte first |
| `Pds.ShorterForm` | crates/baston-voice/src/pds.rs:101-102 | such a form: one byte that reads as a value written in nine |
| `Pds.Reader.NextByte` | crates/baston-voice/src/pds.rs:42-46 | one byte, or nothing at the end |
| `Pds.Reader.ReadU64` | crates/baston-voice/src/pds.rs:55-103 | the reader computes `Read` and moves by its length, and always ends |
| `Pds.WriteU64` | crates/baston-voice/src/pds.rs:112-134 | appends bytes that read back as the value whatever follows |
| `Voice.TailIsFree` | crates/baston-voice/src/voice.rs:80-126 | whatever replaces what follows the audio, a packet parses to the same codec, target and audio end |
| `Voice.HeaderExactly` | crates/baston-voice/src/voice.rs:80-134 | of every packet that parses, the header byte holds the codec's number and the target, and a position is there exactly when twelve bytes follow the audio, which are its bytes |
| `Voice.UnknownCodec` | crates/baston-voice/src/voice.rs:82 | codec numbers above four are refused |
| `Voice.FrameAtHead` | crates/baston-voice/src/voice.rs:111-118 | a frame header's low seven bits count its bytes, its eighth says that another follows, the rest is ignored |
| `Voice.PositionRoundTrip` | crates/baston-voice/src/voice.rs:53-57 | a position's twelve bytes decode to it |
| `Voice.OpusParses` | crates/baston-voice/src/voice.rs:93-98 | an Opus packet built from any session, any header whose low 13 bits count the audio bytes, and any tail parses to what was built |
| `Voice.FramedParses` | crates/baston-voice/src/voice.rs:110-119 | so does a packet of any number of CELT or Speex frames |
| `Voice.SkipFrames` | crates/baston-voice/src/voice.rs:111-117 | the frame loop ends where `Frames` says and fails exactly when it does |
| `Voice.Parse` | crates/baston-voice/src/voice.rs:80-134 | the cursor walk computes `Parsed` |
| `Voice.WithoutPosition` | crates/baston-voice/src/voice.rs:44-46 | the stripped packet parses to the same codec, target and audio end, without position |
| `Voice.WithRewrittenPosition` | crates/baston-voice/src/voice.rs:50-57 | the rewritten packet parses to the same codec, target and audio end, with the new position |
| `Voice.EncodeOutbound` | crates/baston-voice/src/voice.rs:65-76 | reading the session off the outbound packet leaves the original header and body |
| `StateBag.SetSound` | crates/baston-scripting/src/state_bag.rs:171-190 | every write keeps the queue bounded, oldest first with one change per cell, and accounts for the last write of each cell: waiting, given up, or received |
| `StateBag.DrainSound` | crates/baston-scripting/src/state_bag.rs:252-256 | so does every drain |
| `StateBag.LastIsLastWrite` | crates/baston-scripting/src/state_bag.rs:118-128 | versions count the writes, and the recorded last write is the run's last replicated write of the cell |
| `StateBag.DrainedExactly` | crates/baston-scripting/src/state_bag.rs:171-190 | over every run, once the queue is drained receivers hold a cell's last replicated write if and only if it had been handed out already or fewer than 16384 other cells were written since |
| `StateBag.SinceIsBehind` | crates/baston-scripting/src/state_bag.rs:171-190 | behind a queued change stand exactly the cells written since |
| `StateBag.GivenUpIsOutrun` | crates/baston-scripting/src/state_bag.rs:181-188 | a write is given up only after as many other cells as the queue has places were written since |
| `StateBag.NothingGivenUp` | crates/baston-scripting/src/state_bag.rs:181-188 | with no more distinct cells than the queue has places nothing is ever given up |
| `StateBag.PushedIsLatest` | crates/baston-scripting/src/state_bag.rs:159-170 | dropping the oldest at each push keeps exactly the newest deliveries |
| `StateBag.Enqueue` | crates/baston-scripting/src/state_bag.rs:175-189 | the backward search and the push compute `Enqueued` |
| `StateBag.Store.Set` | crates/baston-scripting/src/state_bag.rs:110-192 | stores the value under a new version, with who wrote it, delivers once to every handler whose filters, if any, name the key and the bag, and moves the replication queue as specified |
| `StateBag.Store.DrainDeliveries` | crates/baston-scripting/src/state_bag.rs:235-246 | takes the oldest deliveries of one resource, up to the limit |
| `StateBag.Store.DrainReplicated` | crates/baston-scripting/src/state_bag.rs:252-256 | takes the oldest changes, up to the limit |

## Left out

- AES: a pair of functions on blocks that invert each other stands for it.
- Float rounding, NaN and saturating casts to integers; positions in voice packets are bit patterns.
- gRPC, NATS, ENet and the async runtime: calls are steps with outcomes, channels are sequences.
- `DirNode` and quadtree nodes are values that the operations return anew; the in-place update and the ownership of child nodes are not captured.
- Archive buffers are sequences spliced where the code writes into a vector.
- The interest score: its distance and closing terms are a function given as input; what is modelled is its accumulation, its ceiling and the order it induces.
- Worlds of more than 2^32 entities in the spatial index, which the code truncates.
- Scanning for boundary crossings (`scan_once`, the detector, migration of ownerless entities): the protocol takes the decisions to start, cross or cancel as steps.
- Handoff: player snapshots travel but their content is not compared; zone crashes, client disconnects, draining a zone and re-homing on the first update are not steps of it.
- Handoff: the gateway's own timeout towards the target is not a step of its own; it is a failed preparation whose request may still arrive.
- Forwarder.Shard.Run: stands for the publish calls; a publish that fails, or finds no route, is not modelled, and neither is the release of a dropped player.
- Batches on the wire: taken to arrive once, in order and unlost; the subscriber's handling of evicted batches and failed acknowledgements (crates/baston-gateway/src/state_aggregator.rs:131-156), after which an old batch can come again, is not modelled.
- Rebalance.HandleZoneFailure: does not register the moved players in their new zones.
- CryptState.NoNonceUsedTwice: bounds the run so that the counter cannot wrap; CryptState.SharedNonceIsATurnAway holds of every run.
- State-bag handlers: registration, cookies and name filters; a handler's filters are given.
- StateBag.Store.Set: one atomic step; concurrent writers take their version before the lock and could queue out of version order.
- Configuration, administration, metrics, scripting isolates, the CFX sidecar, licence and escrow crates.
