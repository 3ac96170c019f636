# Verified models of the Rust samples

This project models the stateful samples of the repository in Dafny and proves what they are for,
over every input, every interleaving or every reachable state.

| sample | files | main results |
|---|---|---|
| `doge-rust`, a hash-chained ledger | `Hex`, `LedgerJson`, `LedgerChain`, `LedgerNode`, `LedgerNetwork` | the unseparated hash input decodes uniquely, so a tip hash determines the history; a node is a prefix of its miner after every run exactly when they share the first block |
| `dns_server`, a cache and DDNS table | `Calendar`, `Rfc3339`, `DnsTables`, `DnsServer`, `DnsQueries`, `DnsService` | what every query is answered, by what happened before; RFC 3339 texts sort by time, so the janitor is invisible; every cached answer is traced to a forwarder answer still alive |
| `anti_ddos`, a connection shield | `Shield`, `ShieldRuns`, `ShieldRate`, `ShieldProxy`, `ShieldPerIp`, `ShieldBursts` | counters equal live handlers in every interleaving; a windowed rate bound over whole runs; exactly when the limits hold for an IP |
| `siem_clickhouse_processor`, a batching actor | `SiemBatching`, `SiemWriter`, `SiemRuns`, `SiemRefinement`, `SiemShutdown` | order and conservation, bounded time in the buffer, durability with concurrent writers |
| `xdp_firewall`, both halves | `Bits`, `Firewall`, `FirewallDaemon` | byte-level longest-prefix lookup is CIDR membership; the map is the union of all rule files read |
| `dlp_analyzer`, a scorer | `Luhn`, `Permute`, `DlpScan`, `DlpEngine` | the greedy scan is optimal, and exactly which texts and words can make it panic; results do not depend on hash map order; which typing errors the card check catches |
| `hl_websocket_server`, a cluster | `ClusterNode`, `Cluster`, `ClusterDelivery`, `ClusterRefinement` | one delivery order for all clients; exactly which messages a session gets over a whole run |

`Basics`, `Decimal`, `Text` and `Encoding` hold the machine types, numerals, string order and UTF-8 the
others share.

## How the samples are modelled

- Code that changes state is a class whose methods are proved against functions on values. Runs are
  lists of atomic steps built from the same functions: a block that holds a lock is one step, and
  every `.await` lies between two steps. A step that is not enabled changes nothing, so every list
  of steps is a run. `DnsService.Resolver` and `ShieldProxy.Proxy` execute such lists on the objects
  themselves and keep the invariants of the runs as their `Valid()`; `ClusterRefinement.Serve` does the
  same for a node's table.
- Library results are parameters: the hash function, the signature primitives, `Ipv4Addr` text, the
  network parsers, the matches of a regular expression. Fallible calls carry their outcome.
- Clocks are parameters. Times are integers in nanoseconds, except that the batching actor's are in
  any fixed unit.

Assumptions are written as `requires` clauses or named predicates and never as global facts:

- `LedgerChain.CollisionFree` is asked only of the hash inputs in play, since no function with
  64-character results is injective. `LedgerNode.Sound` says that an honest signature verifies, and
  `Unforgeable`, asked only by `AcceptedIff`, that no other does.
- `LedgerNode.Mine` takes a nonce that solves the block. Without one the original never returns a block.
- `DnsTables.Lawful` states what the server needs of timestamps and text order.
  `DnsTables.ChronoIsLawful` proves it of chrono's UTC format (offset `+00:00`, a fraction of 0, 3, 6
  or 9 digits, four-digit years) under bytewise order, which is SQLite's. The clock never runs
  backwards, and the runs keep `now` plus any 32-bit lifetime within the year 9999 (`DnsServer.InRange`).
- An amount is represented by its JSON text, any text without a comma. `LedgerNode.Displays` says that
  its other text, the one signed, tells amounts apart and is the plain numeral for whole ones.
- Time in the SIEM runs does not pass an expired timer before it fires.
- Texts in the dictionary scan and in `hex::decode` are UTF-8 bytes. Lower-casing is a parameter;
  `DlpScan.Lawful` says that it turns UTF-8 into UTF-8, and `LowersAscii` what it does to ASCII texts.
  A panic of the scan is the result `None`. Keywords are not empty: with an empty
  one the original never returns.
- The kernel trie is a map from bit strings that holds 4096 entries, with longest-prefix lookup.
- The Redis channel delivers every message to a subscriber once, in publication order, from the
  moment it subscribed.

## Where the code and its own text differ

- The `Transaction` record omits the `amount` its methods use. The model adds it.
- The index and timestamp of a block are hashed with nothing between them, so the hash does not
  always determine both. `LedgerNode.IndexNotDetermined` shows that every ledger accepts
  two such blocks, and `IndexDetermined` gives the exact condition.
- `hex::decode` accepts capitals and a plus sign. `EncodeDecode` says exactly which texts survive a
  round trip. It is declared to return an error but can panic, on "0" for example: `DecodePanicsIff` is
  the exact condition, and `VerifyPanicsIff` says which transactions make verification panic.
- Every node mines its own first block, so two nodes of the program need not agree on it.
  `StrangerStays` shows that a node with another first hash takes no block of the miner in any run, and
  `PrefixIffSameGenesis` gives the exact condition for following the miner.
- A block from the network is accepted without a look at its index, its proof of work or its
  signatures. `BlockUnchecked` is such a block for every ledger; `ReachableIsValid` says exactly when a
  ledger still has the indices and the work of a mined one.
- Session numbers are counted per node, but the broadcast skips by number alone, so a client on
  another node with the sender's number misses the message. `SameNumberMisses` is such a run and
  `DeliveredIff` the exact condition; `DeliveredThroughout` states it for whole runs
  in which the node keeps its subscription, and `LostForGood` says what a lost one costs.
- A transaction in the name `SYSTEM` needs no signature, even from the network (`SystemUnsigned`).
  `PendingBacked` says that everything else in the pool is signed.
- A signature covers sender, receiver and amount with nothing between them, so it does not always bind
  the transaction. `SignatureDoesNotBind` moves a digit from the amount to the receiver and the
  signature still passes; `SignatureBindsIff` gives the exact condition.
- The dictionary scan finds an offset in the lowered text and slices the original there, by the length
  of the word as written. Both panic when lower-casing changes the width of a character.
  `DottedCapitalPanics` is such a text and `NeverPanicsIff` the exact condition on texts;
  `DottedKeywordPanics` is such a word and `WordNeverPanicsIff` the exact condition on words.
- The shield's limits are described per IP, but its registry is keyed by address and port.
  `OneIpTakesAll` is a run in which one IP holds every permit. `TwentyPerIpIff` and `FiftyPerIpIff` say
  exactly when the limits hold for an IP, and `OncePerPortIff` when no port is used twice.
- The request limit is described per second, but a window is not a sliding second.
  `HundredAtWindowEnd` passes a hundred requests within a nanosecond, and `FiftyInIntervalIff` says for
  which lengths of time fifty is a bound.

## Model

| member | source | states |
|---|---|---|
| Hex.DecodeEncode | doge-rust/src/main.rs:208-218 | decoding an encoded byte string gives it back |
| Hex.EncodeDecode | doge-rust/src/main.rs:208-218 | encoding a decoded text gives it back exactly when the text is lower-case hexadecimal |
| Hex.CapitalsDecode | doge-rust/src/main.rs:212-217 | the capital form of an encoded byte string decodes to it too |
| Hex.PlusDecodes | doge-rust/src/main.rs:212-217 | a plus sign before one digit is read as that digit |
| Hex.DecodesIff | doge-rust/src/main.rs:212-217 | a text decodes exactly when it consists of pairs that are numbers, one for each byte |
| Hex.DecodePanicsIff | doge-rust/src/main.rs:212-217 | decoding panics exactly when a slice runs past the text or into a character and every pair before it is a number; otherwise a bad pair is an error |
| LedgerJson.CharsUnique | doge-rust/src/main.rs:112-115 | an escaped JSON string body determines the string and where it ends |
| LedgerJson.CharsRead | doge-rust/src/main.rs:112-115 | a reader of JSON strings by section 7 of RFC 8259 gets every escaped string back and stops where it ends |
| LedgerJson.EscapeLength | doge-rust/src/main.rs:112-115 | which characters are written with short escapes, with long ones, and as they are |
| LedgerJson.PlainText | doge-rust/src/main.rs:112-115 | the fields of a transaction appear under their names, in order, with plain strings as they are |
| LedgerJson.SampleSignature | doge-rust/src/main.rs:112-115 | a signature is written as a list of numbers, and a missing one as null |
| LedgerJson.ObjectUnique | doge-rust/src/main.rs:112-115 | the JSON text of a transaction determines all its fields, whatever the amount, and what follows it |
| LedgerJson.ArrayUnique | doge-rust/src/main.rs:112-115 | the JSON array of transactions is self-delimiting |
| LedgerJson.ArrayAppend | doge-rust/src/main.rs:114-115 | writing an array before some text is the array's own text followed by it |
| LedgerChain.UniqueDecoding | doge-rust/src/main.rs:112-118 | two blocks with the same hash input have the same transactions, previous hash, nonce and index-then-timestamp digits |
| LedgerChain.SampleInput | doge-rust/src/main.rs:112-118 | the hash input of an empty block, written out |
| LedgerChain.IndexDetermined | doge-rust/src/main.rs:112-118 | blocks with the same hash input have the same index and timestamp exactly when their timestamps have equally many digits |
| LedgerChain.PreviousLength | doge-rust/src/main.rs:147-152 | in a valid chain only the first block has the one-character previous hash; all others carry their predecessor's hash |
| LedgerChain.SamePosition | doge-rust/src/main.rs:190-204 | equal block hashes in two valid chains sit at equal positions |
| LedgerChain.AgreeBackwards | doge-rust/src/main.rs:190-204 | chains that share a hash at a position have the same content at every earlier one |
| LedgerChain.HistoryDetermined | doge-rust/src/main.rs:190-204 | valid chains with the same tip hash have the same length and content at every position |
| LedgerChain.NoRepeatedHash | doge-rust/src/main.rs:190-204 | no hash occurs twice in a valid chain |
| LedgerNode.SignedVerifies | doge-rust/src/main.rs:42-79 | a transaction signed by the key its sender address encodes verifies |
| LedgerNode.GenuineIff | doge-rust/src/main.rs:49-79 | a transaction verifies exactly when it is in the system's name or carries a signature that the key in its sender address vouches for, over sender, receiver and amount |
| LedgerNode.AcceptedIff | doge-rust/src/main.rs:158-170 | a transaction of a key's address is accepted exactly when its amount is positive and its signature is the one that key makes for its three fields |
| LedgerNode.SystemUnsigned | doge-rust/src/main.rs:51-54 | an unsigned transaction in the system's name is accepted |
| LedgerNode.PendingBacked | doge-rust/src/main.rs:158-170 | everything in the pool is positive and in the system's name or signed |
| LedgerNode.VerifyPanicsIff | doge-rust/src/main.rs:49-66 | verification panics exactly on a signed transaction, not from the system, whose sender makes decoding panic |
| LedgerNode.SignatureBindsIff | doge-rust/src/main.rs:34-39 | transactions with the same signed text and equally long senders agree on sender, receiver and amount exactly when their receivers are equally long |
| LedgerNode.SignatureDoesNotBind | doge-rust/src/main.rs:34-79 | a transaction signed for one receiver and amount is accepted, with its signature, for another receiver and another amount |
| LedgerNode.Mine | doge-rust/src/main.rs:120-129 | mining returns the least nonce from its start whose hash has the required zeros, and stops by any solving nonce |
| LedgerNode.MinedUnique | doge-rust/src/main.rs:120-129 | the mined block is determined by the block mining started from |
| LedgerNode.MinedBlock | doge-rust/src/main.rs:120-129 | mining changes only nonce and hash; the hash is the block's own, begins with 0000, and no smaller nonce gives such a hash |
| LedgerNode.PushKeepsValid | doge-rust/src/main.rs:182-200 | appending a self-hashed successor of the tip keeps a chain valid |
| LedgerNode.PushKeepsLocal | doge-rust/src/main.rs:177-184 | appending a block keeps consecutive indices, modulo 32 bits, and proof of work exactly when the block has them |
| LedgerNode.BlockUnchecked | doge-rust/src/main.rs:190-204 | every ledger accepts a block out of line that holds a transaction nobody signed |
| LedgerNode.IndexNotDetermined | doge-rust/src/main.rs:190-199 | every ledger accepts two blocks that have the same hash and different indices |
| LedgerNode.LocalHistoryIdentical | doge-rust/src/main.rs:172-188 | two locally mined chains with the same tip hash are equal, timestamps included |
| LedgerNode.Blockchain.constructor | doge-rust/src/main.rs:138-152 | a new ledger is valid and holds one mined genesis block with index 0, marker "0" and the first coins |
| LedgerNode.Blockchain.AddTransaction | doge-rust/src/main.rs:158-170 | a transaction is appended to the pool exactly when it is accepted, and nothing else changes; the ledger stays valid |
| LedgerNode.Blockchain.MinePending | doge-rust/src/main.rs:172-188 | the new block holds one reward to the miner and behind it all pending transactions in order, continues index and tip, has least nonce and own hash; the pool is empty and a local chain stays local |
| LedgerNode.Blockchain.AddBlockFromNetwork | doge-rust/src/main.rs:190-204 | a block is appended and the pool emptied exactly when it links to the tip and carries its own hash; otherwise nothing changes and the link is reported first; the ledger stays valid |
| LedgerNetwork.AcceptedIffNext | doge-rust/src/main.rs:190-204 | a block of the miner's chain is accepted on a prefix of it exactly when it is the next block |
| LedgerNetwork.StepKeepsPrefix | doge-rust/src/main.rs:172-204 | every step of miner, follower and network keeps the follower a prefix of the miner |
| LedgerNetwork.BlockTravels | doge-rust/src/main.rs:172-204 | a mined block extends the miner's chain and, once it arrives, that of a node level with it |
| LedgerNetwork.FollowerIsPrefix | doge-rust/src/main.rs:223-247 | after any run with loss, reordering and duplication a node that shares the miner's first blocks is a prefix of it |
| LedgerNetwork.StrangerRejects | doge-rust/src/main.rs:190-199 | a ledger accepts no block of a chain whose first hash differs from its own |
| LedgerNetwork.StrangerStays | doge-rust/src/main.rs:223-247 | through any run such a node keeps exactly the chain it has |
| LedgerNetwork.PrefixIffSameGenesis | doge-rust/src/main.rs:138-152 | a node that starts from its own first block is a prefix of the miner after a run exactly when that block is the miner's |
| LedgerNetwork.CatchUp | doge-rust/src/main.rs:238-243 | delivering the missing blocks in order makes the chains equal |
| LedgerNetwork.HandleChanges | doge-rust/src/main.rs:158-204 | what each input does to chain and pool |
| LedgerNetwork.HandleKeeps | doge-rust/src/main.rs:158-204 | each way a node changes keeps its ledger linked, self-hashed and its pool checked, and keeps indices and proof of work exactly when a block taken from the network has them |
| LedgerNetwork.ReachableIsValid | doge-rust/src/main.rs:137-205 | every reachable ledger is valid; it has consecutive indices and proof of work throughout exactly when it began so and every network block it took was in line |
| Calendar.FieldOrder | dns_server/src/main.rs:76 | comparing date and time fields from year to nanosecond is comparing instants |
| Calendar.MonthStarts | dns_server/src/main.rs:87 | the day of the year on which each month begins, in common and leap years |
| Calendar.GregorianCycle | dns_server/src/main.rs:87 | the calendar repeats after 400 years of 146097 days |
| Calendar.ToCivil | dns_server/src/main.rs:87 | every instant of the four-digit years has a valid date and time that denotes it |
| Rfc3339.FractionOrder | dns_server/src/main.rs:233-234 | fractions of different lengths, followed by the zone, sort as numbers |
| Rfc3339.FractionShortest | dns_server/src/main.rs:87 | a fraction has the fewest digits, in steps of three, that lose nothing |
| Rfc3339.FormatOrder | dns_server/src/main.rs:233-234 | the texts of two dates sort as their fields |
| Rfc3339.TextOrderIsTimeOrder | dns_server/src/main.rs:233-234 | bytewise order of stored timestamps is chronological order |
| Rfc3339.ParseBack | dns_server/src/main.rs:75-76 | a stored timestamp is read back as the instant it was written for |
| DnsTables.ChronoIsLawful | dns_server/src/main.rs:75-87 | chrono texts and bytewise order meet everything the server relies on |
| DnsTables.TrimDropsOnlyDots | dns_server/src/main.rs:54 | trimming a name removes trailing dots and nothing else |
| DnsTables.CleanupDeletesExpired | dns_server/src/main.rs:232-236 | the text comparison deletes exactly the rows whose parsed expiry is past and changes no other |
| DnsServer.FirstA | dns_server/src/main.rs:124-131 | the saved record is the first A record of the answer, and none is saved exactly if there is none |
| DnsServer.StepAgrees | dns_server/src/main.rs:97-142 | one step with the janitor on and off keeps the two servers in agreement up to dead rows |
| DnsServer.JanitorIsInvisible | dns_server/src/main.rs:226-238 | in every interleaving, from any well-formed tables and across restarts, the server answers as one that never cleans up |
| DnsServer.ChronoJanitorIsInvisible | dns_server/src/main.rs:226-238 | the same for the timestamps and order the program uses, restarts on the stored tables included |
| DnsServer.HitIsJustified | dns_server/src/main.rs:64-82 | a cache hit is backed by a save of the same name and address that has not expired |
| DnsServer.RunAccounted | dns_server/src/main.rs:97-142 | in every reachable state, restarts included, each row, event and record is accounted for by the log |
| DnsServer.ServedFromForwarder | dns_server/src/main.rs:107-131 | an address served from the cache was a forwarder answer for the same name up to dots, perhaps before a restart, and is served within its lifetime; a client stops using it within 300 seconds of that |
| DnsServer.LatestUpdateWins | dns_server/src/main.rs:102-106 | an A query whose local lookup follows an update, before or after a restart, is answered with the latest updated address |
| DnsServer.AliveIsServed | dns_server/src/main.rs:64-92 | a cache lookup made while the name's latest saved answer is alive is answered with it, whatever cleanups and restarts there were |
| DnsQueries.QueryAnswered | dns_server/src/main.rs:97-142 | in every reachable state a new query for an A record gets the latest update with lifetime 60, or else the latest save still alive with lifetime 300, or else the forwarder's answer, whose first A record is then what is saved |
| DnsQueries.CachedIff | dns_server/src/main.rs:64-82 | the cache answers exactly while the latest save of the name is alive |
| DnsQueries.UpdateStored | dns_server/src/main.rs:163-192 | an update becomes the latest for its name exactly when its address parses and the statement runs; other names keep theirs |
| DnsQueries.AnswersLogged | dns_server/src/main.rs:102-111 | every answer out of a table has its update or its service from the cache in the log |
| DnsQueries.CleanedUp | dns_server/src/main.rs:226-238 | a cleanup leaves exactly the rows whose save has not expired before now |
| DnsQueries.TimePasses | dns_server/src/main.rs:75-76 | time passes as long as it stays in range |
| DnsQueries.OthersOnlyForwarded | dns_server/src/main.rs:102-141 | in every run a query for another record is never answered out of a table |
| DnsQueries.OtherAnswered | dns_server/src/main.rs:113-141 | it is answered with what the forwarder says, and the tables stay as they are |
| DnsService.Resolver.TryLocal | dns_server/src/main.rs:102-106 | the first visit to the database answers or passes on exactly as the run's step does |
| DnsService.Resolver.TryCache | dns_server/src/main.rs:107-110 | the second visit, to the cache, likewise |
| DnsService.Resolver.TakeReply | dns_server/src/main.rs:114-141 | a reply ends the query or leads to the save of its first A record |
| DnsService.Resolver.SaveFirst | dns_server/src/main.rs:124-131 | the save stores that record and the query ends with the whole reply |
| DnsService.Resolver.Execute | dns_server/src/main.rs:97-238 | the object, driven through any series of steps, stays accounted for, follows the run, and answers as it would without a janitor |
| Shield.AntiDDoSShield.AdmitClient | anti_ddos/src/main.rs:77-89 | a client is admitted exactly below 20 connections and then counted once; no other entry changes, and leaving restores the count |
| Shield.AntiDDoSShield.DropClient | anti_ddos/src/main.rs:92-98 | one connection fewer for the client, never below none, and no other entry changes |
| Shield.AntiDDoSShield.CheckClientRate | anti_ddos/src/main.rs:112-129 | within a window requests pass exactly until 50 have, and the first one after it passes and opens the next; connection counts and other entries stay |
| Shield.AntiDDoSShield.Evict | anti_ddos/src/main.rs:39-47 | a pass over a shard, in any order, removes exactly its idle entries without connections |
| ShieldRuns.MoveCounts | anti_ddos/src/main.rs:88-98 | moving one handler changes each address's live count and the permit count by exactly its own entry or exit |
| ShieldRuns.LiveEntryPresent | anti_ddos/src/main.rs:92-117 | a counted handler's entry is present with a positive count, so the second insert never inserts and the guard always decrements |
| ShieldRuns.StepCounted | anti_ddos/src/main.rs:74-98 | every step keeps counters equal to live handlers, within 20, and permits adding up to 10000 |
| ShieldRuns.RunCounted | anti_ddos/src/main.rs:74-98 | the same in every reachable state |
| ShieldRuns.TotalIsLive | anti_ddos/src/main.rs:18-27 | counts summed over the registry are the number of live handlers |
| ShieldRuns.TotalWithinPermits | anti_ddos/src/main.rs:74-89 | counts summed over all addresses never exceed the permits in use, nor those 10000 |
| ShieldRuns.JanitorSparesLive | anti_ddos/src/main.rs:43-45 | the janitor never evicts an address with a live handler |
| ShieldRuns.EvictedIff | anti_ddos/src/main.rs:43-45 | in every reachable state a pass over a shard evicts exactly the addresses in it without a live handler and without a request for 60 seconds |
| ShieldRuns.RefusedIffFull | anti_ddos/src/main.rs:74-89 | a handler is refused a permit exactly when 10000 are in use, and entry exactly when 20 handlers of its address are live |
| ShieldProxy.Proxy.Execute | anti_ddos/src/main.rs:39-129 | the object, driven through any interleaving, counts exactly the live handlers of every address, at most 20, and exactly the permits held |
| ShieldRate.RunPaced | anti_ddos/src/main.rs:112-129 | in every reachable state an address's passes fall into windows of at most 50, more than a second apart, across eviction and re-creation |
| ShieldRate.FiftyPerWindow | anti_ddos/src/main.rs:119-128 | every fifty passes cost more than one window |
| ShieldRate.RateBound | anti_ddos/src/main.rs:112-129 | at most 50 * (floor(L) + 2) requests of one address pass in any L seconds of a run |
| ShieldRate.RefusalJustified | anti_ddos/src/main.rs:119-128 | a request is refused only if fifty of its address passed within the last second |
| ShieldRate.RequestDecided | anti_ddos/src/main.rs:112-129 | in every reachable state a request is refused exactly when its address has had fifty passes in the window still open; otherwise it passes, once |
| ShieldPerIp.PerIpMaximum | anti_ddos/src/main.rs:74-89 | an IP has at most 20 connections for each port it uses, and at most 10000, in every run, and some run reaches that |
| ShieldPerIp.TwentyPerIpIff | anti_ddos/src/main.rs:12-27 | the limit of 20 holds for an IP in all runs exactly when it connects from one port at most |
| ShieldPerIp.OncePerPortIff | anti_ddos/src/main.rs:12-27 | in runs that use no port twice it holds exactly when the IP has no more than 20 ports |
| ShieldPerIp.OneIpTakesAll | anti_ddos/src/main.rs:74-89 | a run in which one IP, with one connection from each port, takes every permit |
| ShieldPerIp.FiftyAtOnce | anti_ddos/src/main.rs:119-128 | at most fifty requests of an address pass at one instant |
| ShieldBursts.HundredAtWindowEnd | anti_ddos/src/main.rs:119-128 | a run in which a hundred requests of one address pass within a nanosecond |
| ShieldBursts.FiftyInIntervalIff | anti_ddos/src/main.rs:14-15 | fifty bounds the requests of an address in every stretch of a given length, over all runs, exactly when that length is zero |
| ShieldBursts.PerIpRate | anti_ddos/src/main.rs:112-129 | at one instant at most 50 requests of an IP pass for each port it uses, and some run reaches that |
| ShieldBursts.FiftyPerIpIff | anti_ddos/src/main.rs:15-27 | the limit of 50 holds for an IP exactly when it connects from one port at most |
| SiemBatching.OnEventAppends | siem_clickhouse_processor/src/main.rs:133-149 | receiving an event adds it behind all earlier ones and keeps batch sizes legal |
| SiemBatching.OnEventBatches | siem_clickhouse_processor/src/main.rs:133-149 | an event joins the buffer and leaves the timer alone, or completes a batch of the largest size and restarts the timer |
| SiemBatching.OnTimerKeeps | siem_clickhouse_processor/src/main.rs:163-175 | the timer loses, adds and reorders nothing |
| SiemBatching.BatchManager.Receive | siem_clickhouse_processor/src/main.rs:131-149 | the receive branch pushes, flushes a full buffer and resets the timer |
| SiemBatching.BatchManager.Expire | siem_clickhouse_processor/src/main.rs:163-175 | the timer branch flushes a nonempty buffer and restarts the timer |
| SiemBatching.BatchManager.Run | siem_clickhouse_processor/src/main.rs:123-180 | for any series of ready branches the batches concatenate to the events received and nothing stays buffered; only timer expiries and the end make batches smaller than the limit, and without expiries only the last one can be |
| SiemWriter.Storage.DumpToWal | siem_clickhouse_processor/src/main.rs:92-109 | a dump appends the batch up to its first failing write and succeeds exactly when nothing failed |
| SiemWriter.Storage.WriteBatch | siem_clickhouse_processor/src/main.rs:46-89 | what reaches the table and the log for every outcome; the batch is in the table or whole in the log unless the log failed |
| SiemRuns.StepConserved | siem_clickhouse_processor/src/main.rs:123-180 | every step keeps batches, buffer and channel together equal to the events sent |
| SiemRuns.StepStored | siem_clickhouse_processor/src/main.rs:46-109 | every step keeps the table and the log equal, as multisets, to what the writers put there |
| SiemRuns.EveryRun | siem_clickhouse_processor/src/main.rs:123-180 | in every run: order and conservation, batch sizes, empty buffer and channel once the loop has ended, no event buffered beyond the timeout |
| SiemRuns.SendIff | siem_clickhouse_processor/src/main.rs:201-206 | an event is sent exactly while the channel is open, has room and a receiver |
| SiemRuns.ReceiveBatches | siem_clickhouse_processor/src/main.rs:133-149 | in a run too, an event joins the buffer or completes a batch of exactly the largest size |
| SiemRuns.ExpireBatches | siem_clickhouse_processor/src/main.rs:163-175 | the timer, once due, hands on what is buffered and is restarted |
| SiemRuns.FewShortBatches | siem_clickhouse_processor/src/main.rs:123-180 | in every run at most one batch for each expiry, and the last, are smaller than the limit |
| SiemRuns.ClockNeverStuck | siem_clickhouse_processor/src/main.rs:146-175 | with a positive timeout the timer resets always let time pass |
| SiemRuns.FinishedIsDurable | siem_clickhouse_processor/src/main.rs:46-109 | in every reachable state the batches of all writes that finished without a log failure are in the table and log, with multiplicity |
| SiemRuns.RunAwaited | siem_clickhouse_processor/src/main.rs:151-158 | in every run the actor returns only after the write of its last batch has finished |
| SiemRuns.AllDelivered | siem_clickhouse_processor/src/main.rs:123-180 | once the actor has returned, its awaited last write is finished; if no dump failed, all events sent are in the table and log, with multiplicity |
| SiemShutdown.LoopEnds | siem_clickhouse_processor/src/main.rs:151-158 | the loop ends exactly on a closed and empty channel; what is buffered becomes the last batch, and its write is awaited |
| SiemShutdown.ReturnsIff | siem_clickhouse_processor/src/main.rs:151-158 | the actor returns from its last write exactly when that is finished |
| SiemShutdown.CanReturn | siem_clickhouse_processor/src/main.rs:123-180 | in every run, once the channel is closed, the actor can be brought to return |
| SiemRefinement.WriterRefines | siem_clickhouse_processor/src/main.rs:46-109 | the interleaved writer, run alone, has exactly the effect of the sequential one |
| Bits.PrefixByDivision | xdp_firewall/xdp_firewall/src/main.rs:71-75 | equal first bits are equal quotients by a power of two |
| Bits.NumberOfByteBits | xdp_firewall/xdp_firewall/src/main.rs:68-69 | the bits of a byte string denote its big-endian value |
| Firewall.KeyLayout | xdp_firewall/xdp_firewall/src/main.rs:65-90 | the key holds 4 or 6, the address, and zeros |
| Firewall.LookupIsLongest | xdp_firewall/xdp_firewall_ebpf/src/main.rs:74 | a lookup finds the value of the longest stored prefix, and finds one exactly when there is one |
| Firewall.EtherType | xdp_firewall/xdp_firewall_ebpf/src/main.rs:42-49 | the protocol test reads the two header bytes in network order on machines of either byte order |
| Firewall.DecideLooksUpSource | xdp_firewall/xdp_firewall_ebpf/src/main.rs:34-107 | a packet is dropped exactly when it is a complete TCP packet over IP whose source key is found |
| Firewall.NetworkValue | xdp_firewall/xdp_firewall/src/main.rs:69 | clearing host bits keeps the network part |
| Firewall.KeyIsMembership | xdp_firewall/xdp_firewall/src/main.rs:65-90 | a rule's key is a prefix of a packet's key exactly when the network contains the source; families never mix |
| Firewall.DropIsMembership | xdp_firewall/xdp_firewall_ebpf/src/main.rs:34-107 | with rules loaded, a packet is dropped exactly when it is TCP over IP from inside one of them |
| FirewallDaemon.HostContainsOnlyItself | xdp_firewall/xdp_firewall/src/main.rs:55-61 | a single address rule contains that address only |
| FirewallDaemon.HostBitsDoNotMatter | xdp_firewall/xdp_firewall/src/main.rs:67-78 | two ways of writing one network give one key |
| FirewallDaemon.Daemon.Insert | xdp_firewall/xdp_firewall/src/main.rs:77 | an insert adds its key unless the map is full |
| FirewallDaemon.LineMeans | xdp_firewall/xdp_firewall/src/main.rs:42-62 | a line blocks an address exactly when it is neither blank nor a comment and names a network that contains it or, being no network, the address itself |
| FirewallDaemon.Daemon.ParseRules | xdp_firewall/xdp_firewall/src/main.rs:42-62 | the rules read are those of the lines that are neither blank nor comments and parse |
| FirewallDaemon.Daemon.Reload | xdp_firewall/xdp_firewall/src/main.rs:39-94 | a reload, in any set order, removes nothing, adds only the file's rules, and all of them if they fit; otherwise the map is filled to its last entry |
| FirewallDaemon.Daemon.Serve | xdp_firewall/xdp_firewall/src/main.rs:38-97 | over any series of file versions the map holds only their rules, and all of them if they fit; otherwise it is full |
| FirewallDaemon.BlockedIsUnion | xdp_firewall/xdp_firewall/src/main.rs:38-97 | the blocked packets are TCP over IP from an address that some line of some version read blocks |
| Luhn.SingleErrorDetected | dlp/dlp_analyzer/src/main.rs:142-168 | changing one digit of a valid number, whatever its separators, is rejected |
| Luhn.SwapDetected | dlp/dlp_analyzer/src/main.rs:142-168 | swapping neighbouring digits of a valid number passes exactly when they are equal or 0 and 9 |
| Luhn.UniqueCheckDigit | dlp/dlp_analyzer/src/main.rs:142-168 | a card text with a payload of legal length is completed by exactly one check digit, whatever its separators |
| Luhn.ValidateIff | dlp/dlp_analyzer/src/main.rs:142-168 | a card text passes exactly when it has 13 to 19 digits and, from the right, the even digits and the digit sums of the doubled odd ones add up to a multiple of ten |
| Permute.FlatMapOrderFree | dlp/dlp_analyzer/src/main.rs:94-106 | collecting results over a reordered sequence gives the same results as a multiset |
| DlpScan.GreedyIsDisjoint | dlp/dlp_analyzer/src/main.rs:95-105 | the scan's offsets are disjoint occurrences, each reported once |
| DlpScan.GreedyIsMaximum | dlp/dlp_analyzer/src/main.rs:95-105 | no family of disjoint occurrences is larger than what the scan finds |
| DlpScan.OccursAtBoundaries | dlp/dlp_analyzer/src/main.rs:97-98 | bytes found that spell a UTF-8 text begin and end between characters |
| DlpScan.AsciiKeepsOffsets | dlp/dlp_analyzer/src/main.rs:93 | lowering keeps the offsets of every ASCII text, whatever it does to other letters |
| DlpScan.LowerIgnoresCase | dlp/dlp_analyzer/src/main.rs:93-96 | lowering makes two ASCII characters equal exactly when they are the same but for case |
| DlpScan.NeverPanicsIff | dlp/dlp_analyzer/src/main.rs:92-106 | no word that fits makes the scan of a text panic exactly when every offset of the lowered text is an offset of the text |
| DlpScan.WordNeverPanicsIff | dlp/dlp_analyzer/src/main.rs:96-98 | a word makes the scan of no aligned text panic exactly when its lowered form is at least as long and can be cut at its length |
| DlpScan.DottedCapitalPanics | dlp/dlp_analyzer/src/main.rs:97-98 | a text on which the scan for a fitting word panics |
| DlpScan.DottedKeywordPanics | dlp/dlp_analyzer/src/main.rs:97-98 | a word for which the scan of an aligned text panics |
| DlpScan.HitsAreMaximum | dlp/dlp_analyzer/src/main.rs:92-107 | where lowering keeps offsets the scan does not panic, the number of hits is the largest possible number of disjoint case-insensitive occurrences, and each hit is one |
| DlpScan.AsciiHitsAreMaximum | dlp/dlp_analyzer/src/main.rs:92-107 | the same for every ASCII text and every nonempty ASCII keyword, with lowering as the program has it |
| DlpScan.Scan | dlp/dlp_analyzer/src/main.rs:93-106 | the loop reports the original text at each offset found, and panics exactly when one of its slices is no text |
| DlpEngine.RunSignature | dlp/dlp_analyzer/src/main.rs:74-91 | a signature rule adds its matches, for cards only the valid ones, and the running total stays exact in 32 bits |
| DlpEngine.RunDictionary | dlp/dlp_analyzer/src/main.rs:92-107 | a dictionary rule adds every word's hits in some order of the words, and panics exactly when some word's scan does, whatever the order |
| DlpEngine.DetectedIff | dlp/dlp_analyzer/src/main.rs:72-109 | a detection is reported exactly when some rule accounts for it: a match with the rule's type and score, for cards a valid one, or a hit of a word with the word's weight |
| DlpEngine.AnalysisMeans | dlp/dlp_analyzer/src/main.rs:68-125 | an analysis lists exactly what some rule accounts for, adds up the weights, and derives verdict and severity from the total |
| DlpEngine.WordDetected | dlp/dlp_analyzer/src/main.rs:94-106 | a word gives one detection for each hit, with the rule's type and the word's weight |
| DlpEngine.AcceptedCount | dlp/dlp_analyzer/src/main.rs:75-90 | every match counts as often as it was found, except invalid card numbers |
| DlpEngine.SeverityIff | dlp/dlp_analyzer/src/main.rs:111-117 | the scores of each severity |
| DlpEngine.ImpactGrows | dlp/dlp_analyzer/src/main.rs:89-104 | every detection adds its own weight to the total |
| DlpEngine.DetectionsOrderFree | dlp/dlp_analyzer/src/main.rs:72-109 | detections agree as multisets for any iteration orders |
| DlpEngine.AnalysesAgree | dlp/dlp_analyzer/src/main.rs:68-125 | any two analyses of a document have the same score, verdict and severity; without overflow the score is the sum of impacts |
| DlpEngine.Engine.AddRule | dlp/dlp_analyzer/src/main.rs:63-65 | a new rule leaves what the others detect unchanged and adds its own detections behind |
| DlpEngine.Engine.Analyze | dlp/dlp_analyzer/src/main.rs:68-125 | the result lists the detections of all rules for some iteration order, with their total, verdict and severity; it panics exactly when some word's scan does |
| DlpEngine.Engine.AnalyzeParallel | dlp/dlp_analyzer/src/main.rs:128-138 | whatever order threads finish in, result i is an analysis of document i; it panics exactly when one of the documents does |
| DlpEngine.AlignedScans | dlp/dlp_analyzer/src/main.rs:68-109 | a document whose offsets lowering keeps is analysed without a panic by rules whose words fit |
| Cluster.WriteKeepsTrail | hl_websocket_server/src/main.rs:131-134 | moving the queue's head to the wire does not change what the client will see |
| Cluster.Drains | hl_websocket_server/src/main.rs:131-134 | as many successful writes as there are queued frames bring the client all of them in order |
| Cluster.PingAnswered | hl_websocket_server/src/main.rs:188-192 | a connected session's ping adds exactly one pong behind everything queued |
| Cluster.Welcomed | hl_websocket_server/src/main.rs:113-118 | a client through the handshake is listed with an empty queue and then welcomed |
| Cluster.Heartbeats | hl_websocket_server/src/main.rs:137-143 | a heartbeat that gets through sends a ping and changes nothing else |
| Cluster.LeavesForGood | hl_websocket_server/src/main.rs:131-180 | a session leaves the table when its read loop ends or a write or heartbeat fails, and never returns to it |
| Cluster.BroadcastPublished | hl_websocket_server/src/main.rs:196-213 | a serving session's broadcast is published once with its number and text, if the bus takes it |
| Cluster.NodeStepOk | hl_websocket_server/src/main.rs:103-253 | every step of a node keeps its sessions' notifications in bus order, below the listener's position, and welcome first, also between a session's removal and the end of its writer |
| Cluster.RunOk | hl_websocket_server/src/main.rs:103-253 | the same for all nodes in every reachable state |
| Cluster.ReceivedInBusOrder | hl_websocket_server/src/main.rs:113-134 | every client receives notifications in bus order without duplicates, never one with its own number, and welcome first and once |
| Cluster.SameOrderEverywhere | hl_websocket_server/src/main.rs:227-245 | two notifications received by two sessions arrive in the same order |
| ClusterDelivery.DeliveredIff | hl_websocket_server/src/main.rs:233-244 | a session connected throughout a delivery gets the message exactly when its number differs from the sender's |
| ClusterDelivery.DeliveredThroughout | hl_websocket_server/src/main.rs:227-245 | over any run without a lost bus, a session still connected has been given, of all messages since it joined, exactly those whose sender number differs from its own |
| ClusterDelivery.LostForGood | hl_websocket_server/src/main.rs:219-253 | a node that loses the bus and subscribes again starts behind everything published; what its listener had not begun never reaches its sessions in any run |
| ClusterDelivery.NeverLate | hl_websocket_server/src/main.rs:227-245 | in any run a message that the listener has passed over never reaches the session |
| ClusterDelivery.Completes | hl_websocket_server/src/main.rs:239-244 | the listener goes on to the next message exactly when everybody listed since the beginning has been visited; a lost bus does not cut a delivery short |
| ClusterDelivery.SameNumberMisses | hl_websocket_server/src/main.rs:81-85 | a run in which a connected client on another node misses a broadcast |
| ClusterRefinement.DeliveryIsBroadcast | hl_websocket_server/src/main.rs:239-244 | an uninterrupted delivery in the cluster, sessions with dropped receivers included, has the effect of the broadcast loop |
| ClusterNode.ServerState.NextSession | hl_websocket_server/src/main.rs:81-85 | session numbers are positive, increasing and never reused |
| ClusterNode.ServerState.SendToAll | hl_websocket_server/src/main.rs:233-244 | the loop, in any order, appends the message to every open queue but the sender's |
| ClusterNode.ServerState.Execute | hl_websocket_server/src/main.rs:81-244 | the object, given any series of commands, has the table they describe, with legal session numbers |
| ClusterRefinement.StepIsCommands | hl_websocket_server/src/main.rs:103-244 | every step of a node in the cluster changes its table as the commands of that step do |
| ClusterRefinement.RunIsScript | hl_websocket_server/src/main.rs:103-244 | a whole run of the cluster leaves each node the table that its commands make |
| ClusterRefinement.Serve | hl_websocket_server/src/main.rs:103-244 | the object, given the commands of any run, ends with the table the run leaves |

## Left out

- SHA-256, Ed25519, the regular expression engine, JSON parsing, SQLite, the DNS library, ClickHouse, Redis and the kernel trie: they enter as parameters, outcomes or stated assumptions.
- Sockets, byte copying, logging, start-up code and runtime tuning.
- LedgerJson.ObjectUnique: infinite and undefined amounts, which JSON writes alike as `null`, count as one amount.
- LedgerNode.Mine: the nonce is a 64-bit number that the search never overflows, because it stops at a solving nonce; a block with none is not modelled.
- Peer discovery and message framing in the ledger; messages arrive whole.
- The lookup of non-A records beyond forwarding them, and letter case in DNS names, which the code compares exactly.
- Rfc3339.ParseBack: reads only the texts the program writes, not the whole RFC 3339 grammar.
- Upstream connection and proxying in the shield after the rate block, and task cancellation.
- Byte interleaving of concurrent log dumps within one line, and the survival of spawned writers after `main` returns.
- Back-pressure timing of the SIEM senders; a send to a full channel is simply not enabled.
- Removal of firewall rules, which the program never does, and text-level parsing of addresses and networks.
- DlpScan.Scan: an empty keyword is excluded, because the original then loops for ever and has no result.
- DlpEngine.Engine.Analyze: empty keywords are excluded as in the scan; the total wraps at 32 bits as in a release build, where a debug build would panic.
- DlpEngine.RunDictionary: empty keywords are excluded as in the scan.
- DlpEngine.Engine.AnalyzeParallel: empty keywords are excluded as in the scan.
- DnsServer.RunAccounted: a clock from which a 32-bit lifetime would reach the year 10000 is excluded here and in the other run theorems, since five-digit years are written with a sign and sort differently.
- Client timeouts of the websocket server as times; a read loop may end at any point.
- Serialization failures of websocket messages, and the `Auth` message, which has no effect.
- The other samples of the repository: wrappers around system calls and libraries, or smaller versions of the loops above.
