# Verification of the WiFi lab regression runner

The runner executes WiFi lab tests, reads packet captures as evidence, and decides what a run's results mean.
This project models the parts of it whose guarantees hold over unbounded inputs and runs, and proves them in
Dafny 4.11. `dafny verify dfyconfig.toml` checks everything.

| file | models |
|---|---|
| `CaptureOrder.dfy`, `PacketGroups.dfy` | the time order of a capture and the grouping of its packets |
| `DnsCorrelation.dfy` | the DNS query/response correlator (section 7.3 of RFC 1035) |
| `EapolHandshake.dfy` | the four-way handshake search (section 12.7.6 of IEEE 802.11-2016) |
| `DhcpTransactions.dfy` | DHCP transactions (section 3.1 of RFC 2131), renewals and rebindings |
| `RsnElement.dfy` | the RSN element (section 9.4.2.25 of IEEE 802.11-2016) and the walk over information elements |
| `ResourceLocks.dfy` | lock groups and stale-lock recovery as a system of concurrent processes |
| `LayeredConfig.dfy` | the layered configuration merge with provenance, by paths and by dotted names |
| `RunOutcome.dfy`, `RunLifecycle.dfy`, `Baselines.dfy` | the run service: outcome, lifecycle, promotion, baseline table |
| `RunOrchestrator.dfy` | preparation and finalization of a run, over the locks and the run service |
| `SyncQueue.dfy` | the leased outbound queue and its worker |
| `LegacyImport.dfy` | the import of legacy rows |
| `RateLimiter.dfy`, `Statistics.dfy`, `Ulid.dfy` | the sliding-window limiter, the sample statistics, the identifier encoder |
| `Sequences.dfy`, `Decimals.dfy`, `Wrappers.dfy` | orders of sequences, decimal text, Option and Result, shared by the others |

How the program's forms are rendered. Code that updates variables, lists or rows in place is a method with
loops and invariants, or a class whose methods change its fields; its contract ties the result or the new state
to a specification function or predicate, and the theorems are proved about those. Exceptions are `Result` values
or a false return, SQLite transactions are atomic steps. Concurrency, crashes, timeouts, clocks and the outcome
of network calls are arbitrary choices: a schedule of actions that a theorem quantifies over, or a `*` in a method.
Decoded packets, times (as reals or integers) and byte strings are the inputs.

What the proofs say about the code, beyond that it does what it should:

- The correlator's first-in-first-out rule is optimal: no one-to-one pairing correlates more. Its loop that drops
  queries later than the response never drops one (`QueueIsNotLater`).
- Stale-lock recovery never touches a lease in force, but it looks at a file three times before it takes the flock: it
  reads the record, then tests the flock, then the owner. It marks a properly released lease RECOVERED exactly if the
  last write since that reading released it, or the reading met a RELEASED record being overwritten; while nobody has
  the flock from the reading on, its judgement still holds (`RecoveryOverwritesExactly`). So a release during the
  inspection is lost, also when nobody takes the flock (`ReleaseWhileInspected`), and so is any lease that fits
  between inspection and flock (`LeaseInBetweenIsOverwritten`).
- The configuration merge is not associative, and `AssociativeExactlyWhen` says when it is. The provenance table is
  keyed by dotted names, so a key with a dot after something visible can lose its entry to a stronger layer
  (`RiskyKeyLosesEntry`). Such a dot is exactly what makes a key harmful; without it the table is the image of the
  entries by paths, whatever the order of the keys (`HarmlessExactly`, `TableIsImage`).
- Whether a run is accepted does not depend on any order, but REJECTED or UNVALIDATED does, exactly where both kinds
  of offending result occur (`OrderMattersExactly`).
- A result recorded for the latest attempt after completion rules out promotion for good
  (`LateResultBlocksPromotion`).
- `prepare` writes back a run it read earlier. That is a step the service allows exactly if the run is still
  PREPARING; otherwise it takes the run back, and a run that others ended in between lives again
  (`WriteBackIsStepExactly`, `PrepareRevivesEndedRun`). Over calls of the run service alone, terminal states are
  final (`RunsOnlyAdvance`).
- An envelope the far side accepted goes back into the queue, or is blocked, when the event after its
  acknowledgement cannot be appended (`DeliveredButPutBack`). An acknowledged item is safe exactly once the worker has
  left it (`AckedStaysExactly`). The cap of one hour on the backoff never applies.

## Model

| member | source | states |
|---|---|---|
| `CaptureOrder.SortByTime` | lib/services/protocol_evidence.py:318 | the stable sort lists the same packets, in (time, position) order |
| `CaptureOrder.OrderIsUnique` | lib/services/protocol_evidence.py:653-656 | two time-ordered listings of the same packets are equal, so any sort does |
| `PacketGroups.GroupBy` | lib/services/protocol_evidence.py:305-314 | the dictionary has one group per key, with every packet of that key in file order and no other |
| `PacketGroups.SortGroup` | lib/services/protocol_evidence.py:317-318 | a sorted group has the same packets in time order |
| `DnsPairing.FifoIsPairing` | lib/services/protocol_evidence.py:705-732 | the first-in-first-out rule gives a one-to-one pairing of responses with earlier queries: same identifier, name, type and protocol, from the address and port the query went to and to those it came from |
| `DnsPairing.Covering` | lib/services/protocol_evidence.py:712-727 | each edge of any pairing is covered by an edge of the rule's pairing, at the query if a later response to it went unmatched, else at the response |
| `DnsPairing.FifoIsMaximum` | lib/services/protocol_evidence.py:660-732 | no pairing of time-ordered packets is larger than the rule's |
| `DnsPairing.FifoIsUnique` | lib/services/protocol_evidence.py:660-732 | the rule determines which queries are answered and by which responses |
| `DnsPairing.FifoKeepsOrder` | lib/services/protocol_evidence.py:716-724 | within one question and flow, responses are paired in the order of the queries |
| `DnsCorrelation.PopEligible` | lib/services/protocol_evidence.py:716-724 | takes the oldest queued query not later than the response, after dropping exactly those that are later |
| `DnsCorrelation.QueueIsNotLater` | lib/services/protocol_evidence.py:719-724 | in time order no queued query is later than the packet at hand, so none is dropped |
| `DnsCorrelation.RecordQuery` | lib/services/protocol_evidence.py:686-705 | a named query gets an uncorrelated record and waits in the queue of its key if its flow is known; the loop's invariant holds after it |
| `DnsCorrelation.TakeOldest` | lib/services/protocol_evidence.py:706-732 | a response takes the oldest waiting query of its reversed key, and the invariant holds with one pair more, or none waits |
| `DnsCorrelation.CorrelateOrdered` | lib/services/protocol_evidence.py:660-760 | for time-ordered packets: the pairing is the rule's, each record reports what it did with its query, and counted packets are correlated or unmatched |
| `DnsCorrelation.Summarise` | lib/services/protocol_evidence.py:745-750 | the correlated count and the answers of correlated records in order |
| `DnsCorrelation.SortCapture` | lib/services/protocol_evidence.py:653-656 | every packet once, in (time, index) order |
| `DnsCorrelation.FifoIsCaptureMaximum` | lib/services/protocol_evidence.py:653-745 | the rule's pairing of the sorted capture is a pairing of the capture, and no pairing of the capture is larger |
| `DnsCorrelation.AnalyzeDns` | lib/services/protocol_evidence.py:643-760 | the correlated count is that of a largest one-to-one pairing of responses with earlier queries that agree in identifier, name, type and protocol and travel the opposite way between the same addresses and ports; the records are those of the rule's pairing in time order, and counts of queries and responses add up |
| `EapolHandshake.SameKeyExactly` | lib/services/protocol_evidence.py:307-314 | two frames share a group exactly if they have the same two endpoints in either order, missing ones included |
| `EapolHandshake.KeyOf` | lib/services/protocol_evidence.py:307-314 | the key is the pair of endpoints in ascending order, a missing one last |
| `EapolHandshake.CaseIsIgnored` | lib/services/protocol_evidence.py:309 | addresses that differ only in the case of ASCII letters are one address, and no others are |
| `EapolHandshake.HandshakeIsComplete` | lib/services/protocol_evidence.py:257-298 | true exactly if four records at increasing positions are messages 1 to 4 in the right directions with replay M2 = M1, M3 > M1, M4 = M3 |
| `EapolHandshake.CollectRecords` | lib/services/protocol_evidence.py:319-344 | the records are the numbered frames of the group, in its order |
| `EapolHandshake.AnalyzeGroup` | lib/services/protocol_evidence.py:317-354 | a group is complete exactly if the capture holds a handshake between its stations, said of the frames' own addresses, numbers, key types, descriptors and replay counters |
| `EapolHandshake.AnalyzeEapol` | lib/services/protocol_evidence.py:300-360 | completed exactly if the whole capture in time order contains a handshake; one entry for each pair of endpoints that occurs and no other, complete exactly if that pair has a handshake, with its key numbers and replay counters in time order |
| `DhcpTransactions.OrderedDora` | lib/services/protocol_evidence.py:91-100 | true exactly if DISCOVER, OFFER, REQUEST, ACK occur at increasing positions |
| `DhcpTransactions.PhaseExactly` | lib/services/protocol_evidence.py:102-136 | a request with a client address rebinds exactly if sent to 255.255.255.255, and renews exactly if sent to another IPv4 address that is neither 0.0.0.0 nor multicast |
| `DhcpTransactions.FindExtension` | lib/services/protocol_evidence.py:170-188 | looking at the first request of a phase only loses nothing: true exactly if some request of that phase is acknowledged at its time or later |
| `DhcpTransactions.FirstAck` | lib/services/protocol_evidence.py:168-169 | the address in the earliest ACK of the transaction |
| `DhcpTransactions.MessageTypes` | lib/services/protocol_evidence.py:166 | the message types of the transaction in time order |
| `DhcpTransactions.AnalyzeTransaction` | lib/services/protocol_evidence.py:164-230 | exchange, renewal, rebinding and acknowledged address of one transaction, in terms of the capture; only for a known client |
| `DhcpTransactions.AnalyzeDhcp` | lib/services/protocol_evidence.py:138-249 | one entry for each transaction of the capture and no other; the three counts are the numbers of transactions of known clients with a complete exchange, renewal or rebinding, and the verdicts say whether there is one; a lease counts only if the first acknowledged address is not 0.0.0.0 |
| `RsnFormat.DecodeOfEncode` | lib/services/protocol_evidence.py:411-453 | decoding an encoding gives the element back |
| `RsnFormat.EncodingIsLaidOut` | lib/services/protocol_evidence.py:407-431 | version 1, group suite, pairwise count and suites, AKM count and suites and tail lie at their offsets |
| `RsnFormat.U16` | lib/services/protocol_evidence.py:407 | two bytes, the low one first |
| `RsnFormat.EncodeOfDecode` | lib/services/protocol_evidence.py:411-453 | encoding what was decoded gives the bytes back |
| `RsnFormat.AcceptsExactlyEncodings` | lib/services/protocol_evidence.py:405-453 | the accepted byte strings are exactly the encodings of elements with version 1, pairwise and AKM suites, and an optional tail |
| `RsnFormat.SuiteNameInjective` | lib/services/protocol_evidence.py:374-399 | per kind, different four-byte selectors have different names |
| `RsnFormat.CipherNames` | lib/services/protocol_evidence.py:391-399 | each of the seven cipher names is that of one selector, given by its four bytes, and of no other |
| `RsnFormat.AkmNames` | lib/services/protocol_evidence.py:382-390 | each of the six AKM names is that of one selector |
| `RsnFormat.HexIsRead` | lib/services/protocol_evidence.py:376-381 | other vendors' selectors are written as two lower-case hexadecimal digits for each byte with colons in between |
| `RsnParser.SuiteNames` | lib/services/protocol_evidence.py:421-434 | the names of the selectors at an offset, in order |
| `RsnParser.ParseRsn` | lib/services/protocol_evidence.py:401-453 | valid exactly if the bytes encode some element; else as many suites as could be located |
| `RsnParser.ReportOfEncoding` | lib/services/protocol_evidence.py:401-453 | an encoded element is reported valid with the names of its own suites |
| `RsnParser.ReportDeterminesSuites` | lib/services/protocol_evidence.py:374-453 | elements reported alike list the same suites |
| `BeaconElements.SplitIsUnique` | lib/services/protocol_evidence.py:470-489 | bytes split into complete elements and an incomplete rest in at most one way |
| `BeaconElements.WalkElements` | lib/services/protocol_evidence.py:457-489 | for any bytes, reports what the one split into complete elements and a rest says: the last element of each kind, with a truncated RSN element spoiling the RSN |
| `BeaconElements.SummaryMeans` | lib/services/protocol_evidence.py:473-489 | the SSID is the last element with id 0 and the RSN the last with id 48; a truncated one counts as an RSN but spoils its validity |
| `BeaconElements.ChannelMeans` | lib/services/protocol_evidence.py:485-486 | the channel is the first byte of the last element with id 3 that has one |
| `BeaconElements.WalkOfEncoding` | lib/services/protocol_evidence.py:470-489 | walking encoded elements reports exactly those elements, whatever incomplete bytes follow |
| `BeaconElements.WalkOfAny` | lib/services/protocol_evidence.py:470-489 | every byte string is such an encoding, so the walk of any bytes is described |
| `ResourceLocks.SortedSet` | lib/services/resource_lock.py:215 | the identifiers without repetition, in increasing order |
| `ResourceLocks.RunKeepsInv` | lib/services/resource_lock.py:155-237 | kernel table, the processes' own views and the records agree after any schedule |
| `ResourceLocks.MutualExclusion` | lib/services/resource_lock.py:179-195 | in every reachable state no two processes act on the same resource |
| `ResourceLocks.LocksArePrefix` | lib/services/resource_lock.py:215-237 | in every reachable state a process has locked exactly a prefix of its sorted resources, and nothing after a failed acquire, a release or a crash |
| `ResourceLocks.ChainClimbs` | lib/services/resource_lock.py:215-228 | along a chain of waiting processes the resources waited for increase |
| `ResourceLocks.NoWaitCycle` | lib/services/resource_lock.py:215-228 | the wait-for graph of a reachable state has no cycle |
| `ResourceLocks.SomeoneAdvances` | lib/services/resource_lock.py:179-237 | if some process waits, a process that another waits for and that does not wait itself can take a step of its call without timing out |
| `ResourceLocks.OthersLeaveLeasesAlone` | lib/services/operational_recovery.py:211-263 | whatever another process does, recovery included, a process keeps its phase, its locks and the records of what it holds |
| `ResourceLocks.WritesOnlyHeld` | lib/services/resource_lock.py:54-85 | a step changes only lock files its process has locked or locks |
| `ResourceLocks.MarkedWasJudged` | lib/services/operational_recovery.py:167-228 | in every run, what a recovery marks or still means to mark it has looked at three times since it started: a record without expiry or with one that is past, in state HELD or UNKNOWN, after that a free flock, after that an owner that is gone |
| `ResourceLocks.CondemnedExactly` | lib/services/operational_recovery.py:174-225 | recovery condemns a record exactly if it has no expiry or one that is past, says HELD or UNKNOWN, and names no live process with a number above 1 |
| `ResourceLocks.InspectionFinds` | lib/services/operational_recovery.py:174-209 | whatever others do between the three looks, recovery means to mark a file exactly if all three speak against it |
| `ResourceLocks.UntouchedStillAbandoned` | lib/services/operational_recovery.py:174-231 | if nobody has the flock at any point from the reading of the record on, a condemned file still looks abandoned at the end of any schedule |
| `ResourceLocks.RecoveryOverwritesExactly` | lib/services/operational_recovery.py:174-254 | for all schedules between reading, flock test, owner test, flock and write: the record marked RECOVERED was a RELEASED one exactly if the last write since the reading left it so, or the reading was torn and nothing was written after it; and one that still looked abandoned if nobody had the flock since the reading |
| `ResourceLocks.ReleaseWhileInspected` | lib/services/operational_recovery.py:174-209 | in every state in which a holder is about to give a lease back and recovery reads its record, torn or expired, the RELEASED file is condemned without anybody taking the flock |
| `ResourceLocks.LeaseInBetweenIsOverwritten` | lib/services/operational_recovery.py:218-254 | in every state in which recovery is about to lock a file, any other resting process can take and release that resource first, and its RELEASED record becomes RECOVERED |
| `ResourceLocks.LockDirectory.AcquireNext` | lib/services/resource_lock.py:155-204 | the next resource is locked and its record written, or the call gives up with the leases it had |
| `ResourceLocks.LockDirectory.AcquireMany` | lib/services/resource_lock.py:206-237 | with other processes interfering between any two calls: exactly the wanted resources are locked and recorded HELD, or nothing is locked; an empty list changes nothing; without interference and with every resource free it succeeds |
| `ResourceLocks.LockDirectory.Unwind` | lib/services/resource_lock.py:231-237 | every lease acquired so far is given back, whichever record writes fail |
| `ResourceLocks.LockDirectory.Release` | lib/services/resource_lock.py:110-123 | every lock of the group is given back, whichever record writes fail, and then it raises; if none does and nobody interferes, every record says RELEASED |
| `ResourceLocks.LockDirectory.Recover` | lib/services/operational_recovery.py:167-264 | whatever others do, every file it marks is one of the files given, condemned by its own three looks during the call, and is counted; the record its reading found had no expiry or one not after the start of the call, and said HELD or UNKNOWN; it ends without a lock; without interference exactly the unlocked files with such a record of a dead or unnamed owner are marked RECOVERED, keeping their owner |
| `ResourceLocks.LockDirectory.RecoverFound` | lib/services/operational_recovery.py:218-264 | the files it marks are counted and are among those found; each is marked if it can be locked, else skipped, and nothing stays locked |
| `ResourceLocks.LockDirectory.InspectFile` | lib/services/operational_recovery.py:173-225 | a file joins those found only by three looks of this call in order; without interference exactly if it looks abandoned |
| `ResourceLocks.LockDirectory.Others` | lib/services/resource_lock.py:179-199 | between two calls others may do anything but change the process's locks, phase or held records |
| `LayeredConfig.OverrideByEmpty` | lib/services/configuration.py:136-142 | an empty top-level layer changes nothing |
| `LayeredConfig.OverrideTwice` | lib/services/configuration.py:107-134 | applying a layer again changes no value |
| `LayeredConfig.FoldSkipsEmpty` | lib/services/configuration.py:136-142 | an empty layer changes nothing wherever it stands among the layers |
| `LayeredConfig.FoldLastTwice` | lib/services/configuration.py:136-142 | resolving with the strongest layer given twice changes no value |
| `LayeredConfig.StrongestLayerWins` | lib/services/configuration.py:129-134 | a value of the strongest layer that is no dictionary is what the merged tree has at its path |
| `LayeredConfig.CleanExactly` | lib/services/configuration.py:47-63 | a value is accepted exactly if no part of it, reached through dictionaries and lists, is unusable or has a blank key |
| `LayeredConfig.SilentLayerKeeps` | lib/services/configuration.py:113-134 | a layer that has nothing at a path or below and only dictionaries above leaves that path as it is |
| `LayeredConfig.LastToSpeakWins` | lib/services/configuration.py:136-142 | of any layers, the last that is not silent about a path decides it, if it has something other than a dictionary there |
| `LayeredConfig.NamedLayerWins` | lib/services/configuration.py:84-142 | over the names defaults, environment, lab, device, run, test_override: a layer's value is the resolved one unless a later-named layer speaks |
| `LayeredConfig.AssociativeExactlyWhen` | lib/services/configuration.py:113-134 | the merge associates exactly where no dictionary is replaced by another value and then by a dictionary that does not overwrite all of it |
| `LayeredConfig.NotAssociative` | lib/services/configuration.py:119-124 | dictionary, scalar, dictionary does not associate |
| `LayeredConfig.EntryOfTerminal` | lib/services/configuration.py:118-134 | at a scalar, list or empty dictionary of the result, the layer supplied it and is named last, or it does not mention the path and nothing changed |
| `LayeredConfig.EntryNamesNodes` | lib/services/configuration.py:118-134 | a layer is named only where it has a scalar, list or empty dictionary, and an entry lasts only while its path exists |
| `LayeredConfig.EntryAfterIsRight` | lib/services/configuration.py:101-142 | by paths, the entry after all layers is increasing, names only layers that supply the path, exists only for nodes and for every scalar, list and empty dictionary, and names the last supplier last |
| `LayeredConfig.TableIsImage` | lib/services/configuration.py:101-142 | with safe keys, every table that can come about has exactly the entries by paths under the dotted names, and no others |
| `LayeredConfig.TableIsUnique` | lib/services/configuration.py:113-134 | so the order in which a layer's keys are merged does not matter |
| `LayeredConfig.SafeKeysAgree` | lib/services/configuration.py:93-142 | with safe keys every node has the right entry under its name, and every name is that of a node |
| `LayeredConfig.RiskyKeyLosesEntry` | lib/services/configuration.py:101-124 | for every risky key and every leaf under it, an empty dictionary of a stronger layer under a safe part of the key deletes the entry, in every table that can come about |
| `LayeredConfig.HarmlessExactly` | lib/services/configuration.py:101-116 | among safe keys a key spoils no resolution exactly if it has no dot after something visible |
| `LayeredConfig.ConfigurationResolver.ClearDescendants` | lib/services/configuration.py:101-105 | exactly the entries whose name starts with the path and a dot are deleted |
| `LayeredConfig.ConfigurationResolver.MergeKey` | lib/services/configuration.py:113-134 | the value of one key is the recursive override, and the table changes as one turn of the loop may change it |
| `LayeredConfig.ConfigurationResolver.MergeLayer` | lib/services/configuration.py:107-134 | fails exactly on an unusable key or value; else the tree is the override and the table changes as the turns for all keys may, in some order |
| `LayeredConfig.ConfigurationResolver.Resolve` | lib/services/configuration.py:93-159 | fails exactly on an unknown layer, a non-object or an unusable key or value; else the tree is the fold of what is given as defaults, environment, lab, device, run and test_override, in this order of names, and at each path the value of a layer is the result if no later-named one speaks; the table is one their merges may lead to, reported with the names of the layers, which with safe keys agrees with the tree, is the image of the entries by paths, and names that layer last |
| `DottedPaths.JoinInjective` | lib/services/configuration.py:116 | for keys without a dot after something visible, dotted names are equal only for equal paths |
| `DottedPaths.PrefixIsBelow` | lib/services/configuration.py:101-105 | for such keys, starting with the name and a dot means lying strictly below the path |
| `DottedPaths.CollidesExactly` | lib/services/configuration.py:114-116 | another path of usable keys has the name of a key exactly if the key has a dot with something visible on both sides |
| `DottedPaths.DotFreeIsSafe` | lib/services/configuration.py:114-116 | a usable key without a dot is safe |
| `RunOutcome.Owner` | lib/services/run_service.py:448-454 | the position of the one selected test that matches a result, if exactly one does |
| `RunOutcome.SelectedResultMap` | lib/services/run_service.py:438-458 | a map is returned exactly if results and selected tests correspond one to one, and gives each test its result |
| `RunOutcome.DeriveBusinessOutcome` | lib/services/run_service.py:460-507 | UNVALIDATED without good health or correspondence, else the first result in selection order that is not fine decides, else VALIDATED with or without warnings |
| `RunOutcome.AcceptedExactly` | lib/services/run_service.py:460-507 | accepted exactly if health is good, results and tests correspond and every result is fine; without warnings exactly if every result passed |
| `RunOutcome.FirstOffenderDecides` | lib/services/run_service.py:475-499 | the first result that is not fine gives the outcome |
| `RunOutcome.OutcomeOfOne` | lib/services/run_service.py:460-507 | the outcome of a run with one test, for every health, status, criticality, evidence state and failure class |
| `RunOutcome.RejectedMeans` | lib/services/run_service.py:475-499 | REJECTED only if the product is at fault for an error or a blocking test is FAIL, KNOWN_FAILURE or BLOCKED |
| `RunOutcome.OneToOneHasNoOrder` | lib/services/run_service.py:438-458 | correspondence is a property of the multisets of tests and results |
| `RunOutcome.AcceptanceHasNoOrder` | lib/services/run_service.py:438-507 | permuting tests and results does not change an accepted outcome |
| `RunOutcome.AnyOffenderCanDecide` | lib/services/run_service.py:475-499 | for any offending result some order of the tests makes its verdict the outcome |
| `RunOutcome.OrderMattersExactly` | lib/services/run_service.py:475-499 | the outcome depends on the order exactly if rejecting and merely unvalidating results occur together |
| `Baselines.BaselineRepository.SaveReplacingActive` | lib/repositories/sqlite.py:971-1016 | the active row of the name is superseded by the new one, or, also when the insert fails, nothing changes |
| `Baselines.BaselineRepository.SaveInTransaction` | lib/repositories/sqlite.py:937-969 | inserts unless the identifier exists or the name has an active row |
| `Baselines.ApplyKeepsTable` | alembic/versions/20261105_00_schema_base.py:174-175 | identifiers stay unique, a name has at most one active row, and a superseded row names a later one of its name |
| `Baselines.OneHeadPerName` | lib/repositories/sqlite.py:937-1016 | after any promotions and imports, failing or not, each name has exactly one active row, the last inserted, where every chain of that name ends |
| `Baselines.Head` | lib/repositories/sqlite.py:990-995 | following superseded_by ends at an active row of the same name |
| `Baselines.SuccessorIsUnique` | lib/repositories/sqlite.py:990-995 | superseded_by names exactly one row, inserted later under the same name |
| `Baselines.PromotionMovesHead` | lib/repositories/sqlite.py:971-1016 | a promotion makes its row the head of its name and leaves other names alone; a failed one changes nothing |
| `Baselines.PromotionSupersedes` | lib/repositories/sqlite.py:990-995 | the active row of the name becomes SUPERSEDED by the new one, every other row keeps all its columns |
| `RunLifecycle.ReachableStoresOk` | lib/services/run_service.py:194-727 | in every reachable store a run is terminal exactly if it has a completion time and an outcome, its attempts are then closed, only COMPLETED runs are validated, and baselines are of completed runs with one active row per name |
| `RunLifecycle.RunsOnlyAdvance` | lib/services/run_service.py:342-727 | over any calls lifecycles only advance, terminal runs keep state, outcome, failure class and completion time, and recorded health never improves |
| `RunLifecycle.AttemptsOnlyGrow` | lib/services/run_service.py:263-410 | over any calls no attempt or result of a run is lost, and recorded start and completion times stay |
| `RunLifecycle.MovesExactlyFrom` | lib/services/run_service.py:45-86 | from which of the nine states a run can be prepared, health-checked and started |
| `RunLifecycle.EndsExactlyFrom` | lib/services/run_service.py:45-86 | complete only from RUNNING and with no other than the derived outcome, fail only from PREPARING or RUNNING, the other endings from every open state |
| `RunLifecycle.ReportsExactlyFrom` | lib/services/run_service.py:342-388 | a new attempt only in an open state, a report of health only in the five states listed |
| `RunLifecycle.EndsAs` | lib/services/run_service.py:418-572 | state, failure class and outcome that each call that ends a run leaves |
| `RunLifecycle.StartsAs` | lib/services/run_service.py:390-416 | a started run notes the time, for its first attempt only if that has none |
| `RunLifecycle.CreatedRunIs` | lib/services/run_service.py:194-261 | created exactly if the identifier is new, tests are selected, the versions are those of the tests and a source run is complete; queued, with one empty attempt |
| `RunLifecycle.ImportedRunIs` | lib/services/legacy_migration.py:566-635 | an imported run is COMPLETED, UNVALIDATED and of unknown health, with its one result |
| `RunLifecycle.RecordedExactly` | lib/domain/models.py:255-271 | recorded exactly if the attempt exists and the result neither claims a pass without evidence (legacy results may) nor lacks a verdict on complete evidence |
| `RunLifecycle.WorseHealthCounts` | lib/services/run_service.py:377-387 | a report replaces the last one exactly if that was HEALTHY and this is not, or this is the worst state and that was not |
| `RunLifecycle.StepKeepsRuns` | lib/services/run_service.py:194-727 | every single call keeps the invariant of runs and attempts |
| `RunLifecycle.NeverPromoted` | lib/services/run_service.py:574-590 | a terminal run that is not COMPLETED, not validated or not healthy is never promoted by any later calls |
| `RunLifecycle.ImportedIsNeverPromoted` | lib/services/legacy_migration.py:306-312 | a run the legacy importer created is never promoted, whatever results and health reports follow |
| `RunLifecycle.PromotionMeans` | lib/services/run_service.py:577-613 | a promoted run is completed and healthy, each selected test has exactly one result, measured, with its evidence, and PASS if blocking, and the new ACTIVE row is in the table |
| `RunLifecycle.PromotedExactly` | lib/services/run_service.py:574-686 | and every such run whose recorded outcome is still the one of its results can be promoted, under any name the table accepts |
| `RunLifecycle.ValidationMeans` | lib/services/run_service.py:418-426 | a completed run is validated exactly if health was good and each selected test had one fine result |
| `RunLifecycle.LateResultBlocksPromotion` | lib/services/run_service.py:263-341 | a result recorded for the latest attempt of a promotable run rules out promotion after any later calls |
| `RunLifecycle.RunService.Transition` | lib/services/run_service.py:688-698 | sets the target if the table allows it, else changes nothing |
| `RunLifecycle.RunService.Finish` | lib/services/run_service.py:700-727 | sets state, outcome, failure class and completion time and closes every open attempt, or changes nothing |
| `RunLifecycle.RunService.CreateRun` | lib/services/run_service.py:194-261 | a queued run with one attempt, unless tests, versions or the source run forbid it |
| `RunLifecycle.RunService.RecordTestResult` | lib/services/run_service.py:263-341 | the result is added to the attempt of that run, in any state of the run, unless the registry declares another unit for its decision metric, it claims success on missing evidence (waived for legacy results) or is unvalidated on complete evidence |
| `RunLifecycle.RunService.CreateAttempt` | lib/services/run_service.py:342-354 | one attempt more with the next number, refused for a terminal run |
| `RunLifecycle.RunService.BeginLabHealthCheck` | lib/services/run_service.py:356-360 | to LAB_HEALTH_CHECK, through PREPARING for a queued run |
| `RunLifecycle.RunService.RecordEnvironmentHealth` | lib/services/run_service.py:362-388 | health is replaced only by a worse one, and only in the states listed |
| `RunLifecycle.RunService.StartRunAfterHealth` | lib/services/run_service.py:390-410 | RUNNING with a start time for run and first attempt |
| `RunLifecycle.RunService.StartRun` | lib/services/run_service.py:412-416 | the whole way from QUEUED to RUNNING, else no change |
| `RunLifecycle.RunService.CompleteRun` | lib/services/run_service.py:418-426 | completes with the derived outcome, and refuses any other a caller asks for |
| `RunLifecycle.RunService.FailRun` | lib/services/run_service.py:509-528 | REJECTED for a product failure, else never a validated outcome |
| `RunLifecycle.RunService.End` | lib/services/run_service.py:530-572 | the six other endings, each with its state and failure class and UNVALIDATED |
| `RunLifecycle.RunService.PromoteBaseline` | lib/services/run_service.py:574-686 | saves the row exactly if the run is promotable and the table accepts it, else changes nothing |
| `RunLifecycle.RunService.ImportRun` | lib/services/legacy_migration.py:566-635 | one imported run with its attempt, result and baseline, all or nothing |
| `RunOrchestrator.RunOrchestrator.Prepare` | lib/services/run_orchestrator.py:57-157 | with an exception at any step and other callers between any two: a session with exactly its resources locked and the run read at the transition written back over what others left; or an exception with nothing locked and a created run terminal, LAB_FAILED in state and failure class unless another caller ended it; the exact store in both cases |
| `RunOrchestrator.RunOrchestrator.Finalize` | lib/services/run_orchestrator.py:159-188 | from every state, exit status and exception, with other callers between its calls, nothing stays locked and the run ends terminal unless the caller's own finalizer returned; the exact store; and where nobody else ends the run: a RUNNING run ends COMPLETED for status 0, ABORTED for 2 and FAILED for any other and the body returns; 0 for any other open state, other statuses for QUEUED and LAB_HEALTH_CHECK, and an early exception end it ABORTED as a worker crash; a record that cannot be written on release makes the call raise but leaves the run |
| `RunOrchestrator.RunIsFinalized` | lib/services/run_orchestrator.py:159-188 | the same of the store: the end state and failure class by the state before and the exit status, and whether the body returns |
| `RunOrchestrator.RunIsHandled` | lib/services/run_orchestrator.py:146-155 | an exception handler leaves a terminal run: as it saw it if it was terminal, as the handler says if nobody else ends it |
| `RunOrchestrator.OpenStaysOpen` | lib/services/run_service.py:45-86 | over any calls, a run that none of them ends stays open |
| `RunOrchestrator.WriteBackIsStepExactly` | lib/services/run_orchestrator.py:120-142 | whatever others call between the two writes of prepare: the write-back is a step the service allows exactly if the run is still PREPARING, then it changes nothing, else it takes the run back |
| `RunOrchestrator.WriteBackKeepsBaselinesExactly` | lib/services/run_orchestrator.py:120-142 | and every baseline still names a completed run exactly if no baseline names this run yet |
| `RunOrchestrator.PrepareRevivesEndedRun` | lib/services/run_orchestrator.py:120-142 | a run that others end in between, however and after whatever calls, is PREPARING again without outcome and can be ended a second time |
| `SyncQueue.SyncEventsKeepEnvelope` | lib/services/sync_service.py:330-341 | added events leave the envelope of a run unchanged exactly if the kinds of all of them start with SYNC_ |
| `SyncQueue.DelayIsWait` | lib/services/sync_service.py:203-206 | the wait after one failure, two and so on is 2, 4, 8 to 1024 seconds, then stays; it never shrinks and never meets the cap |
| `SyncQueue.FailedItemWaits` | lib/services/sync_service.py:202-213 | after a failure, whatever happens short of a new claim, the item is due at the time of the failure plus the wait for its attempts and listed exactly from then on, or never if its attempts are used up |
| `SyncQueue.WaitsNeverShrink` | lib/services/sync_service.py:203-206 | of two failures of one item in any run, the later is followed by at least as long a wait, both between 2 and 1024 seconds |
| `SyncQueue.QueuedIsListed` | lib/repositories/sqlite.py:792-839 | a new item is listed exactly from the moment it is queued |
| `SyncQueue.ExpiredIsListed` | lib/repositories/sqlite.py:884-895 | an item in flight is put back, with its attempts, and listed from then on exactly if its lease has run out |
| `SyncQueue.InterruptedComesBack` | lib/repositories/sqlite.py:841-895 | where the worker is interrupted after a claim, the item is back exactly once the lease it took is over |
| `SyncQueue.QueueIsSafe` | lib/repositories/sqlite.py:792-895 | in every reachable state an item has a lease exactly while IN_FLIGHT, is BLOCKED exactly when its attempts are used up, and was published at most that often plus once per expired lease |
| `SyncQueue.SettledIsFinal` | lib/repositories/sqlite.py:841-882 | an item acknowledged with its event appended, or blocked, is never changed, claimed or published again |
| `SyncQueue.DeliveredButPutBack` | lib/services/sync_service.py:191-213 | an accepted item whose event cannot be appended ends FAILED, or BLOCKED if its attempts are used up |
| `SyncQueue.AckedStaysExactly` | lib/services/sync_service.py:191-213 | an acknowledged item stays so under every continuation exactly if the worker has not just acknowledged it or raised over it |
| `SyncQueue.ReadyIsClaimable` | lib/repositories/sqlite.py:829-839 | the items listed can be claimed, each is listed once, and at most the limit |
| `SyncQueue.SyncQueueRepository.Enqueue` | lib/repositories/sqlite.py:792-820 | an item that is there already stays as it is and is returned, else a queued one is added |
| `SyncQueue.SyncQueueRepository.ListReady` | lib/repositories/sqlite.py:829-839 | the ready items in order of creation, up to the limit |
| `SyncQueue.SyncQueueRepository.Claim` | lib/repositories/sqlite.py:841-858 | a QUEUED or FAILED item is leased, any other is left alone |
| `SyncQueue.SyncQueueRepository.Ack` | lib/repositories/sqlite.py:860-869 | the item becomes ACKED without lease or next attempt, whatever it was |
| `SyncQueue.SyncQueueRepository.Fail` | lib/repositories/sqlite.py:871-882 | the item becomes FAILED or BLOCKED with one attempt more and no lease, whatever it was |
| `SyncQueue.SyncQueueRepository.RecoverExpired` | lib/repositories/sqlite.py:884-895 | exactly the expired leases become FAILED and ready, and their number is returned |
| `SyncQueue.RunnerSyncService.Enqueue` | lib/services/sync_service.py:166 | queueing an envelope that is there already changes nothing at all |
| `SyncQueue.RunnerSyncService.SyncPending` | lib/services/sync_service.py:178-229 | one run of the actions, interrupted anywhere: claims the ready items, oldest first, each once; when finished, as it is unless interrupted, each is acknowledged, or has one failed attempt more and is due the wait for its attempts after that failure; the summary counts acknowledgements, failures that left an item FAILED and those that left it BLOCKED |
| `SyncQueue.RunnerSyncService.Deliver` | lib/services/sync_service.py:183-228 | one item is claimed, and acknowledged or retried after its wait unless interrupted; no other item changes |
| `SyncQueue.RunnerSyncService.Send` | lib/services/sync_service.py:183-190 | the item is claimed for the length of a lease and published once, with the attempts the claim returned, unless interrupted |
| `SyncQueue.RunnerSyncService.Settle` | lib/services/sync_service.py:189-228 | an accepted item is acknowledged; one that is not, or whose acknowledgement or event raises, is retried after its wait |
| `SyncQueue.RunnerSyncService.Except` | lib/services/sync_service.py:202-228 | one failed attempt more, BLOCKED or FAILED and counted as such, due 2 to 1024 seconds after the failure by the number of attempts, unless interrupted; no other item changes |
| `LegacyImport.MigrationService.ImportRow` | lib/services/legacy_migration.py:427-635 | skipped, failed with nothing written, or imported with run, attempt, result, baseline and ledger entry together |
| `LegacyImport.MigrationService.Migrate` | lib/services/legacy_migration.py:350-425 | imported, skipped and failed add up to the rows read, and imported is what the ledger grew by |
| `LegacyImport.PassIsRun` | lib/services/legacy_migration.py:385-424 | a pass, crashed or not, is a sequence of row transactions |
| `LegacyImport.RunKeepsLedger` | lib/services/legacy_migration.py:267-281 | after any sequence a ledger entry exists exactly if its run, attempt and result exist |
| `LegacyImport.LedgerAfterRun` | lib/services/legacy_migration.py:221-265 | what is imported after any sequence is what was there and what some transaction could import, whatever the order; a baseline promoted by hand under a row's name keeps that row out |
| `LegacyImport.SchedulesAgree` | lib/services/legacy_migration.py:385-424 | two schedules that try every row once without an outside fault give the same records and ledger |
| `LegacyImport.AnyScheduleIsCleanPass` | lib/services/legacy_migration.py:221-235 | the result is that of one clean pass of each source, and no later pass imports anything |
| `RecordNames.NamesAreUnique` | lib/services/legacy_migration.py:452-571 | names of runs, attempts, results and baselines of different rows, tables and sources all differ, and differ from first-generation names |
| `RecordNames.BaselineNamesAreUnique` | lib/services/legacy_migration.py:617 | names of imported baselines differ for different rows, sources and firmware versions, so imports never clash with each other |
| `RateLimiter.WindowBound` | lib/services/api_security.py:136-144 | every half-open window holds at most max_attempts allowed calls of a key |
| `RateLimiter.AllowsExactly` | lib/services/api_security.py:136-144 | a call is refused exactly if the key has used up its attempts and the oldest of its last max_attempts accepted calls is less than a window old |
| `RateLimiter.LoginRateLimiter.Allow` | lib/services/api_security.py:136-150 | with a clock that does not go back, the pruned limiter answers exactly like one that keeps every accepted time |
| `RateLimiter.PrunedIsForgotten` | lib/services/api_security.py:145-149 | a key that is pruned has no time that a later call would see |
| `Statistics.Candidates` | lib/domain/statistics.py:98-106 | the values of exactly the samples the policy allows, in order: no warm-up samples, only allowed statuses, retried ones only if included |
| `Statistics.Evaluate` | lib/domain/statistics.py:96-144 | an error exactly if too few samples are eligible, else the summary of the eligible values, with the square root as a parameter |
| `Statistics.DecisionIsNamed` | lib/domain/statistics.py:178-207 | each aggregate names its own statistic; minimum, maximum and mean are those of the samples |
| `Statistics.P90IsAt` | lib/domain/statistics.py:116 | P90 lies nine tenths of the way through the sorted samples, on the line between its two neighbours |
| `Statistics.P95IsAt` | lib/domain/statistics.py:117 | P95 lies nineteen twentieths of the way |
| `Statistics.SummaryInOrder` | lib/domain/statistics.py:114-144 | minimum <= median <= p90 <= p95 <= maximum, with mean and decision value in between (a count or a deviation excepted) |
| `Statistics.SummaryHasNoOrder` | lib/domain/statistics.py:114-144 | permuting the samples does not change the summary |
| `Statistics.DeviationInRange` | lib/domain/statistics.py:120 | the standard deviation is between zero and the range, zero exactly if all samples are equal, and its square at most (maximum - mean)(mean - minimum) |
| `Statistics.DeviationIsMeanSquare` | lib/domain/statistics.py:120 | its square is the mean square of the distances from the mean, over all samples |
| `Statistics.PercentileIsPiecewiseLinear` | lib/domain/statistics.py:210-222 | the percentile is the broken line through the samples at positions 0 to n - 1 |
| `Statistics.PercentileInRange` | lib/domain/statistics.py:210-222 | a percentile lies between the least and the greatest sample |
| `Statistics.PercentileGrows` | lib/domain/statistics.py:210-222 | percentiles do not decrease with the quantile |
| `Statistics.PercentileOfLarger` | lib/domain/statistics.py:210-222 | pointwise larger sorted samples have no smaller percentile |
| `Statistics.MedianIsMiddle` | lib/domain/statistics.py:119 | the median is the percentile at one half |
| `Ulid.GenerateUlid` | lib/services/run_service.py:89-102 | an error exactly outside 48 bits of milliseconds, else the 26 digits of timestamp and random bits |
| `Ulid.EncodeInPlace` | lib/services/run_service.py:98-101 | the backward loop writes the base-32 digits of the value |
| `Ulid.DecodeOfEncode` | lib/services/run_service.py:99-101 | every value below 32^n is read back from its n digits |
| `Ulid.DigitCharIs` | lib/services/run_service.py:41 | the digits are 0 to 9 and A to Z without I, L, O and U, in this order |
| `Ulid.EncodeOfDecode` | lib/services/run_service.py:99-101 | every string of n digits encodes some value below 32^n |
| `Ulid.EncodeInOrder` | lib/services/run_service.py:41 | character order of the encodings is numeric order |
| `Ulid.EncodeSplits` | lib/services/run_service.py:97-101 | high and low parts are encoded side by side |
| `Ulid.UlidIsLossless` | lib/services/run_service.py:89-102 | milliseconds and random bits are read back from their ten and sixteen characters, and the first character is at most 7 |
| `Ulid.LaterSortsLater` | lib/services/run_service.py:89-102 | an identifier of a later millisecond sorts later, whatever the random bits |
| `Ulid.UlidIsInjective` | lib/services/run_service.py:89-102 | identifiers are equal only where timestamp and random bits are |

## Left out

- Reading captures: Scapy, option and name decoding, address normalization, the dotted text of IPv4 destinations (they are numbers here), Unicode lower-casing (only ASCII is lowered) and the UTF-8 decoding of the SSID, which stays bytes.
- `analyze_beacon`'s choice among beacons, the fallback that looks for an RSN element in Scapy's own list, and interval, BSSID and capabilities: single-pass case analysis.
- DHCP message counts, offered address, server identifier and lease timers: read off single packets.
- `_parse_rsn` lines 414-415: the check cannot fail after the length check at line 405 and has no counterpart.
- The contents of lock files beyond state, owner and expiry, and the renewal of a whole group; a renewal whose record write fails is not an action, so the statement that held records say HELD assumes renewals succeed.
- Constructor arguments, identifiers and durations that are rejected as invalid, and the trimming of identifiers: values are taken as already checked.
- A process that acquires a second lock while it has a group. The firmware service takes a `device:` lock of its own (lib/services/firmware_service.py:34-44), with timeout 0, so that call never waits; with longer timeouts sorted order would not protect it from deadlock.
- The injectivity of `_lock_path`, and the moment in which `inspect` itself takes and drops a flock, which the model counts as another process giving up.
- The aliasing of nested dictionaries in the configuration: the merge in place returns the updated sub-dictionary as a value.
- Configuration keys that are not strings are represented by blank ones, and white space by its ASCII characters; the configuration hash and the freezing of the result are not modelled.
- The order of keys in a dictionary: the merge takes them in any order, so for risky keys the model allows every table that some order gives.
- Lifecycle events, display identifiers, failure reasons and redaction; exceptions in the middle of a service call, such as an event that cannot be appended, except where the transition of `Prepare` or the outcome call of `Finalize` raises after its effect.
- `RunLifecycle.RunService.PromoteBaseline`: the registry's metric definitions and policies are one flag per result, and the results are checked in attempt order, not selection order, which decides only which error is raised.
- `RunOrchestrator.RunOrchestrator.Finalize`: a caller's own finalizer is the calls of the run service it makes.
- `RunOrchestrator.RunOrchestrator.Prepare`: exceptions are those its handler catches; KeyboardInterrupt and SystemExit pass it, and then nothing is released or ended by the code itself. In `Finalize` they still release the group but do not end the run.
- Repository errors inside the exception handlers of `prepare` and `finalize`, which the handlers ignore; and interleaving of other callers within one call of the run service, whose reads and writes are separate transactions.
- `RunLifecycle.RunService.Transition`: refuses the terminal targets, with which nothing calls it; they would leave a run without outcome and completion time.
- `SyncQueue.SyncQueueRepository.ListReady`: creation order is insertion order; creation times, and the order by identifier among equal ones, are not modelled.
- `supersede` of the baseline repository, which nothing calls, and the scope columns of a baseline.
- Several sync workers at once: `ack` and `fail` do not check the state, so expired leases of concurrent workers break the bounds.
- SHA-256, which is taken to be injective where it names envelopes and sources.
- Promotions during an import: the names of baselines promoted by hand are fixed while imports run.
- Contents of imported records, legacy artifacts and the counter of invalid rows; only identities are compared.
- The computation of square roots, which is a parameter, and all floating-point rounding: statistics are over reals.
- The time and randomness sources of the identifier generator: both are parameters.
- HTTP, sessions, SSH, the user interface, SQLite itself and schema revisions.
- `IdempotencyStore`, `RunRecoveryService`, `run_process.py`, command filtering, release gate, regression classification and health rollup.
