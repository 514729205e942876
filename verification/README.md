# CES in Dafny

CES is a token-ledger server. This project models the parts of it whose behaviour spans many
steps and proves what every run of them keeps:

- **Settlement client** (`Settlement*.dfy`): `CesClientAsync` drives N ticketed channels to one
  peer over a network that may lose, repeat, reorder and invent packets. `SettlementModel` is the
  state machine with a trace of what was sent, accepted and called back, `SettlementInvariant` and
  `SettlementRuns` carry the invariant over every event, `SettlementHistory` what the trace says of
  packets in flight and deadlines, `SettlementTheorems` states the results, and `SettlementClient` is
  the object, each of whose methods is proved to make the model's step.
- **Ledger and its journal** (`AccountRecord`, `Ledger`, `LedgerTransfers`, `LedgerNonces`,
  `AccountsStore`, `AssetLog`): accounts and assets with the partial, mode-tagged records they write,
  the running credit total, the replay on load, the money a transfer moves and the nonces it uses.
- **SHA-256** (`Sha256`, `Sha256Stream`): the streaming context against FIPS 180-4.
- **Key names** (`KeyNames`, `TwoWayIndex`, `KeyRegistry`): the normal form and the two indexes.
- **Prepaid days** (`Prepay`): machine arithmetic against the plain sum over days.
- **Web gateway** (`FetchWorker`, `DirectoryWalk`, `Eviction`, `Framing`, `ProgSession`,
  `ProgSockets`): the fetch semaphore, disk eviction and the bridged sockets.
- **Wire messages** (`BigEndian`, `WireFormat`, `WireMessages`): the signed messages with a variable
  tail.
- **Gossip budget** (`GossipSplit`): the capped even split over peers.

`dafny verify dfyconfig.toml` verifies everything.

## What is assumed

- Settlement: the clock is a stream that never goes back (`SteadyClock`); a password drawn was not
  drawn before (`Fresh`, asked for only where it is needed); a signed payload fits the 512-byte frame (the type `Payload`, so every run is one of such payloads);
  callbacks neither throw nor re-enter. Signature checking is an arbitrary predicate.
- Ledger: the logkv store is a map with a journal of records over a snapshot; a load drops rows that
  read as empty. Callers keep the documented rules: plain credit on a non-negative balance, settling
  on a payment account, creating on a free id, amounts of a debit below 2^63, assets with an owner; a
  new row is not empty, and settling does not empty one. What happens otherwise is proved too:
  `DebitTotal`, `CreditTotal`, `SettleTotal`, `CreateTotal` and `JournalHoldsNonEmpty` are exact conditions.
  Operations come one by one in any order, so a validated spend need not be followed by its debit.
- Totals and sums are unbounded integers unless a row says otherwise.
- Gateway: file names, access times, deletions that fail, the browser's buffered amount and the
  outcome of every awaited operation are inputs; each stretch of JavaScript between two `await`s is one
  step. The cache directory does not change while it is walked.

## Where the code differs from what is written about it

- `include/ces/keynames.h:49` says the reverse lookup normalizes its argument;
  `src/ceslib/keynames.cpp:118` looks it up as it stands. `KeyRegistry.VerbatimLookup` states exactly
  when that makes no difference.
- `include/ces/feemult.h:41-49` promises full price beyond the window. A day number of 2^32 or more
  wraps and is discounted. `Prepay.CostIsSum` states exactly when this happens.
- Accepting an explicit nonce does not use it up. A spend that is validated and then refused for
  another reason (`src/ceslib/server.cpp:2057-2147`) leaves the stored nonce, and the same nonce is
  accepted again (`LedgerNonces.SameNonceTwice`). `LedgerNonces.NoncesIncrease` states exactly when two
  accepted nonces differ.
- `CesGossip` takes messages of up to 1024 bytes, the settlement client's frame only 270
  (`SettlementFrames.GossipFrame`); a longer one makes the frame buffer throw.
- The key that checks a reply is the one the channel's last accepted INFO brought. The client holds
  `peerServerKey_` but never compares that key with it (`src/ceslib/clientasync.cpp:239`, `265`).
- A deadline ends an op only once it is in flight. A queued op past its deadline is not called back by
  any sweep, and with a peer that never answers the handshake not before close
  (`SettlementTheorems.SweepEndsOnlyFlights`, `SettlementTheorems.UnheardWaits`).
- A debit of 2^63 or more adds to the balance; `Ledger.DebitTotal` states when the total survives it.
- A retry limit below 2 makes the settlement client give up before a deadline
  (`SettlementTheorems.LowRetryLimitGivesUpEarly`); from 2 on it never does.

## Model

| member | source | states |
|---|---|---|
| `SettlementRuns.Reachable` | src/ceslib/clientasync.cpp:35-383 | the whole invariant holds after every sequence of submissions, packets, sweeps and close |
| `SettlementRuns.StepKeeps` | src/ceslib/clientasync.cpp:45-383 | every single event keeps the invariant and the number of channels |
| `SettlementTheorems.EveryOpInOnePlace` | src/ceslib/clientasync.cpp:45-115 | in every run a submitted op is in exactly one of queue, one busy channel or called back, and an op never submitted is nowhere |
| `SettlementTheorems.ClosedMeansCalledBack` | src/ceslib/clientasync.cpp:371-383 | once closed, every op submitted before or after was called back exactly once; close does close |
| `SettlementTheorems.RepliesAnswerTheFlight` | src/ceslib/clientasync.cpp:224-298 | an accepted reply answers the last packet of its channel, which is the last packet of its op, and is checked under the key of that channel's last accepted INFO |
| `SettlementTheorems.PaidOnlyIfVerified` | src/ceslib/clientasync.cpp:247-300 | a non-zero payment is reported only right after an accepted reply to the gossip in flight on that channel, whose signed body carries that code and amount under the key of the channel's last INFO |
| `SettlementTheorems.QueueShape` | src/ceslib/clientasync.cpp:71-131 | the queue is already-sent ops, then never-sent ops in acceptance order, with a gossip only at the head of those |
| `SettlementTheorems.FirstSendsInOrder` | src/ceslib/clientasync.cpp:119-131 | first transmissions follow acceptance order |
| `SettlementTheorems.DeadlinesAgree` | src/ceslib/clientasync.cpp:59-98 | every deadline recorded for an op is its submission time plus the life of its kind |
| `SettlementTheorems.OnlyTheLastSendCanBeLate` | src/ceslib/clientasync.cpp:324-351 | whatever is transmitted again was transmitted, every time before, ahead of submission time plus life |
| `SettlementTheorems.SweepEndsExpired` | src/ceslib/clientasync.cpp:324-351 | the first sweep at or after the deadline of an op in flight calls it back |
| `SettlementTheorems.SweepEndsOnlyFlights` | src/ceslib/clientasync.cpp:304-351 | a sweep at or after submission time plus life calls a pending op back if and only if it is in flight |
| `SettlementTheorems.UnheardWaits` | src/ceslib/clientasync.cpp:304-367 | in every run without a packet from the peer and without close nothing but handshake requests goes out and no accepted op is called back |
| `SettlementTheorems.NoEarlyGiveUp` | src/ceslib/clientasync.cpp:324-351 | with a retry limit of 2 or more an op is given up only at or after submission time plus life, as a timeout without payment |
| `SettlementTheorems.LowRetryLimitGivesUpEarly` | src/ceslib/clientasync.cpp:324-351 | with any limit below 2 a silent peer makes an op be given up before its deadline |
| `SettlementTheorems.TicketsConserved` | src/ceslib/clientasync.cpp:156-298 | until close, replies accepted = op packets sent + channels in Ready |
| `SettlementTheorems.TicketSpentOnce` | src/ceslib/clientasync.cpp:156-167 | every op packet spends the ticket its channel was last granted, and no other packet spends that one |
| `SettlementHistory.RunTraced` | src/ceslib/clientasync.cpp:45-383 | in every run each busy channel's last packet, key and deadline are those its trace and submission say |
| `SettlementTheorems.RepliesAcceptedOnce` | src/ceslib/clientasync.cpp:224-298 | with fresh passwords no two accepted replies answer the same password |
| `SettlementTheorems.NoStrandedWork` | src/ceslib/clientasync.cpp:119-173 | on an open client a queued op means every channel waits for the peer, and any outstanding work means the sweep timer is armed |
| `SettlementTheorems.PendingIsExact` | include/ces/clientasync.h:55-149 | the pending count is queue plus busy channels, at most the queue limit plus the channels, and what the load percentage 0 and 100 mean |
| `SettlementModel.FindWaiting` | src/ceslib/clientasync.cpp:236-262 | the search returns the first channel that awaits this kind of reply to this password, or none |
| `SettlementClient.CesClientAsync.constructor` | src/ceslib/clientasync.cpp:1-34 | a new client is the model's initial state with all channels idle |
| `SettlementClient.CesClientAsync.OpenTransfer` | src/ceslib/clientasync.cpp:45-74 | submitting a transfer makes the model's step and keeps the invariant |
| `SettlementClient.CesClientAsync.GossipTo` | src/ceslib/clientasync.cpp:76-117 | submitting a gossip makes the model's step and keeps the invariant |
| `SettlementClient.CesClientAsync.SubmitOp` | src/ceslib/clientasync.cpp:45-115 | admission: refusal when closed or full, otherwise queue and dispatch |
| `SettlementClient.CesClientAsync.DispatchQueue` | src/ceslib/clientasync.cpp:119-137 | the loop over channels handshakes idle ones and sends on ready ones while the queue lasts |
| `SettlementClient.CesClientAsync.StartHandshake` | src/ceslib/clientasync.cpp:139-146 | draws a password, sends the request and arms the timer |
| `SettlementClient.CesClientAsync.SendOp` | src/ceslib/clientasync.cpp:156-173 | the front op is sent under the ticket the channel holds |
| `SettlementClient.CesClientAsync.Datagram` | src/ceslib/clientasync.cpp:187-222 | any packet makes the model's step |
| `SettlementFrames.GossipFrame` | src/ceslib/clientasync.cpp:162-170 | a signed gossip fits the 512-byte frame exactly up to 270 message bytes, and is then read back unchanged |
| `SettlementClient.CesClientAsync.ReadInfo` | src/ceslib/clientasync.cpp:224-245 | an INFO is accepted exactly by the first channel handshaking under its password |
| `SettlementClient.CesClientAsync.ReadMessage` | src/ceslib/clientasync.cpp:247-300 | a MESSAGE is accepted exactly by the first busy channel under its password and only if its body decodes and verifies |
| `SettlementClient.CesClientAsync.Search` | src/ceslib/clientasync.cpp:236-262 | the loop finds what `FindWaiting` specifies |
| `SettlementClient.CesClientAsync.TimerFired` | src/ceslib/clientasync.cpp:361-369 | a timer tick makes the model's sweep step |
| `SettlementClient.CesClientAsync.SweepChannels` | src/ceslib/clientasync.cpp:304-351 | the loop over channels retries, requeues or gives up as the model's sweep |
| `SettlementClient.CesClientAsync.SweepOne` | src/ceslib/clientasync.cpp:304-351 | what a sweep does to one channel |
| `SettlementClient.CesClientAsync.CloseClient` | src/ceslib/clientasync.cpp:35-43 | closing makes the model's step |
| `SettlementClient.CesClientAsync.FailAll` | src/ceslib/clientasync.cpp:371-385 | every busy op, then every queued op, is called back with the error |
| `AccountRecord.Int48Exact` | include/ces/types.h:280-284 | six bytes keep a balance exactly when it is in the 48-bit range |
| `AccountRecord.Read48Write48` | include/ces/account.h:167-225 | the two-part 48-bit field reads back |
| `AccountRecord.RecordMeans` | include/ces/account.h:167-310 | for every mode, reading a record back over any prior row patches exactly the mode's fields and consumes the record |
| `Ledger.StoredIsSixBytes` | include/ces/types.h:280-284 | storing a balance is writing and sign-extending six bytes |
| `Ledger.ReadIsReplay` | include/ces/account.h:167-310 | folding the bytes of the journal over the snapshot's bytes is replaying the meanings |
| `Ledger.JournalHoldsNonEmpty` | include/ces/account.h:167-225 | a persisted row survives a load exactly when it does not read as empty |
| `Ledger.StepSound` | src/ceslib/accounts.cpp:38-228 | every operation keeps total, ranges and journal right |
| `Ledger.RunSound` | src/ceslib/accounts.cpp:10-228 | so does every run |
| `Ledger.RunLoads` | src/ceslib/accounts.cpp:10-228 | after any run, loading rebuilds every field of every account, the total is the sum of positive balances, and balances are in range |
| `Ledger.RestartIsIdentity` | src/ceslib/accounts.cpp:10-20 | a restart changes neither rows nor total |
| `Ledger.DebitTotal` | src/ceslib/accounts.cpp:118-138 | a debit keeps the total right exactly when the amount is below 2^63, or leaves nothing, or a balance that was not negative stays in range |
| `Ledger.CreditTotal` | src/ceslib/accounts.cpp:172-189 | a plain credit keeps the total right exactly on a balance that is not negative, or for nothing |
| `Ledger.SettleTotal` | src/ceslib/accounts.cpp:191-199 | settling keeps it right exactly when nothing spendable was held |
| `Ledger.CreateTotal` | src/ceslib/accounts.cpp:38-46 | creating keeps it right exactly when no spendable balance is overwritten |
| `LedgerTransfers.ValidatedDebit` | src/ceslib/accounts.cpp:140-170 | a covered debit takes exactly its amount from the total and from the origin, which is erased exactly when emptied |
| `LedgerTransfers.Delivered` | src/ceslib/server.cpp:2109-2149 | opening, settling or crediting the receiver issues exactly what the receiver's spendable balance gains |
| `LedgerTransfers.TransferConserves` | src/ceslib/server.cpp:2109-2153 | a commit, whichever way the receiver is served: the total changes by what was issued less what was paid, the sender loses exactly amount and charges, and nobody else changes |
| `LedgerTransfers.TransferCostsTheFee` | src/ceslib/server.cpp:2118-2153 | a validated transfer to an account or to a waiting payment takes exactly the fee out of circulation |
| `LedgerTransfers.OpeningCosts` | src/ceslib/server.cpp:2067-2116 | opening the receiver takes fee and opening charge, and for a payment the amount as well |
| `LedgerTransfers.SelfTransferCostsTheFee` | src/ceslib/server.cpp:2118-2153 | a transfer to oneself costs the fee and nothing else |
| `LedgerTransfers.PaymentComesBack` | src/ceslib/server.cpp:2109-2149 | a payment opened by one sender and settled by another leaves the payee with the amount and costs the charges of both |
| `LedgerTransfers.ChargeCosts` | src/ceslib/accounts.cpp:201-228 | an error fee takes itself or the whole balance, nothing from a waiting payment, and touches nobody else |
| `LedgerTransfers.EveryExit` | src/ceslib/server.cpp:2057-2153 | every way out: a commit moves exactly amount and charges between the two; a refusal costs the sender the error fee or all it has, nothing when the sender is unknown or the server full, and changes nobody else |
| `LedgerNonces.HistorySound` | src/ceslib/accounts.cpp:83-170 | along every history each accepted nonce, moved by the debits survived since, is the account's next nonce |
| `LedgerNonces.NoncesCountDebits` | src/ceslib/accounts.cpp:106-170 | two explicit nonces accepted in one life of an account differ, modulo 2^32, by exactly the debits between them that it survived |
| `LedgerNonces.NoncesIncrease` | src/ceslib/accounts.cpp:106-138 | below the wrap they never decrease, and increase exactly when such a debit lies between them |
| `LedgerNonces.SameNonceTwice` | src/ceslib/server.cpp:2057-2075 | a spend validated, refused and retried has its nonce accepted twice |
| `AccountsStore.Accounts.constructor` | src/ceslib/accounts.cpp:10-20 | summing the loaded rows in any order gives the running total |
| `AccountsStore.Accounts.SumPositive` | src/ceslib/accounts.cpp:15-19 | the loop over an arbitrary iteration order computes the sum of positive balances |
| `AccountsStore.Accounts.CreateAccount` | src/ceslib/accounts.cpp:38-46 | makes the model's step and keeps the book sound |
| `AccountsStore.Accounts.DebitAccount` | src/ceslib/accounts.cpp:118-138 | for every 64-bit amount the model's step, the book kept sound below 2^63, and the total right exactly under `DebitFits` |
| `AccountsStore.Accounts.DebitForTransfer` | src/ceslib/accounts.cpp:140-170 | for every 64-bit amount the model's step, the book kept sound below 2^63, and the total right exactly under `DebitFits` |
| `AccountsStore.Accounts.CreditAccount` | src/ceslib/accounts.cpp:172-189 | makes the model's step and keeps the book sound |
| `AccountsStore.Accounts.Settlement` | src/ceslib/accounts.cpp:191-199 | makes the model's step and keeps the book sound |
| `AccountsStore.Accounts.ErrorFee` | src/ceslib/accounts.cpp:201-228 | makes the model's step and keeps the book sound |
| `AccountsStore.Accounts.SetAliasId` | src/ceslib/server.cpp:3083-3087 | rewrites the alias with a full record and keeps the book sound |
| `AccountsStore.Accounts.Validate` | src/ceslib/accounts.cpp:83-116 | verdict and error fee as the model's, book kept sound |
| `AssetLog.RecordMeans` | include/ces/asset.h:121-233 | for every mode, reading a record back over any prior asset patches exactly the mode's fields and consumes the record |
| `AssetLog.ReadIsReplay` | include/ces/asset.h:121-233 | folding the journal's bytes is replaying the meanings |
| `AssetLog.RunSound` | src/ceslib/assets.cpp:54-104 | every run, restarts included, keeps disk and memory equal up to the content the disk knows |
| `AssetLog.Assets.constructor` | src/ceslib/assets.cpp:8-13 | after a load memory is what the disk gives back |
| `AssetLog.RestartRebuilds` | src/ceslib/assets.cpp:54-104 | a restart rebuilds which assets exist, owner, price, balance and the content last filed, which is the one in memory if no setContent followed |
| `AssetLog.Assets.SetContent` | src/ceslib/assets.cpp:54-60 | the content in memory changes, nothing a restart gives back does; the invariant of disk and memory is kept |
| `AssetLog.Assets.SetPrice` | src/ceslib/assets.cpp:62-68 | the price changes alike in memory and in what a restart gives back, nothing else changes in either; the invariant is kept |
| `AssetLog.Assets.SetOwner` | src/ceslib/assets.cpp:70-76 | the owner changes alike in memory and in what a restart gives back, nothing else changes in either; the invariant is kept |
| `AssetLog.Assets.SetBalance` | src/ceslib/assets.cpp:78-84 | the balance changes alike in memory and in what a restart gives back, nothing else changes in either; the invariant is kept |
| `AssetLog.Assets.UpdateFull` | src/ceslib/assets.cpp:86-94 | a restart now gives back exactly the row in memory, content included; the invariant is kept |
| `AssetLog.Assets.TransferOwnership` | src/ceslib/assets.cpp:96-104 | the new owner and a price of 0 show alike in memory and in what a restart gives back; the invariant is kept |
| `Sha256Stream.Sha256Ctx.constructor` | src/cesluajitd/sha256.cpp:49-54 | nothing fed, and the running hash is the initial value of section 5.3.3 of FIPS 180-4 |
| `Sha256Stream.Expand` | src/cesluajitd/sha256.cpp:23-32 | the two loops compute the message schedule of section 6.2.2 |
| `Sha256Stream.Mix` | src/cesluajitd/sha256.cpp:33-42 | the loop computes the sixty-four rounds |
| `Sha256Stream.Sha256Ctx.CompressBlock` | src/cesluajitd/sha256.cpp:22-45 | the hash value becomes the compression of itself and the buffer |
| `Sha256Stream.Sha256Ctx.Update` | src/cesluajitd/sha256.cpp:56-66 | data of any length is appended to what was fed: full blocks folded, the rest buffered, the bit count kept modulo 2^64 |
| `Sha256Stream.Sha256Ctx.PadOut` | src/cesluajitd/sha256.cpp:70-73 | the padding loop ends, having fed one bit and the fewest zero bytes that leave room for the length |
| `Sha256Stream.PaddingIsLeast` | src/cesluajitd/sha256.cpp:72-73 | the zero count of section 5.1.1 is the first at which 56 bytes are buffered |
| `Sha256Stream.LengthWraps` | src/cesluajitd/sha256.cpp:74-76 | the wrap of the 64-bit counter does not show in the length bytes |
| `Sha256Stream.Sha256Ctx.Final` | src/cesluajitd/sha256.cpp:68-84 | the output is the SHA-256 of everything fed |
| `Sha256Stream.HashChunks` | src/cesluajitd/sha256.cpp:49-84 | for every message and every way of cutting it into updates the digest is that of the whole |
| `KeyNames.Normalize` | src/ceslib/keynames.cpp:19-36 | the loops compute the normal form: text before the first zero, spaces joined, boundary underscores cut, zero-padded |
| `KeyNames.FixedPoints` | src/ceslib/keynames.cpp:19-36 | a name is a fixed point exactly when it has no space, no boundary underscore and nothing after its text |
| `KeyNames.Idempotent` | src/ceslib/keynames.cpp:19-36 | the normal form is in normal form and normalizing again changes nothing |
| `KeyNames.TrimIsExact` | src/ceslib/keynames.cpp:30-34 | trimming takes only underscores, at both ends, and all of them |
| `KeyNames.SameName` | include/ces/keynames.h:18-21 | two names have one normal form exactly when their joined and trimmed texts agree |
| `KeyNames.ValidName` | src/ceslib/keynames.cpp:38-60 | accepts exactly non-empty padded names with an allowed first byte and only allowed bytes |
| `KeyRegistry.RunKeeps` | src/ceslib/keynames.cpp:62-109 | in every run the reverse index is exactly the inverse of the store, names are valid fixed points, and the cap holds |
| `KeyRegistry.RebuildIsIncremental` | src/ceslib/keynames.cpp:62-69 | rebuilding in any iteration order gives the index kept step by step |
| `KeyRegistry.LookupsAgree` | src/ceslib/keynames.cpp:111-123 | in every run key to name and name to key undo each other |
| `KeyRegistry.RegisterVerdict` | src/ceslib/keynames.cpp:71-89 | the verdict on a registration, in terms of who holds what and how full the registry is |
| `KeyRegistry.RegisteredIsFound` | src/ceslib/keynames.cpp:71-101 | after an accepted registration every spelling finds the key, its old name is free, every other lookup is as before |
| `KeyRegistry.ClearedIsGone` | src/ceslib/keynames.cpp:103-109 | clearing frees the name and changes no other lookup |
| `KeyRegistry.VerbatimLookup` | src/ceslib/keynames.cpp:118-123 | the reverse lookup answers as if it normalized exactly when the argument is in normal form or its normal form is not registered |
| `KeyRegistry.SpaceMisses` | src/ceslib/keynames.cpp:118-123 | "a b" is found as "a_b" and missed as it is spelled |
| `KeyRegistry.KeyNameTable.constructor` | src/ceslib/keynames.cpp:11-17 | the index is derived from any loaded store in some iteration order, and is its inverse if the store is proper |
| `KeyRegistry.KeyNameTable.RebuildReverse` | src/ceslib/keynames.cpp:62-69 | in whatever order the loop goes, the index of a proper store becomes its inverse, whatever it was |
| `KeyRegistry.KeyNameTable.RegisterName` | src/ceslib/keynames.cpp:71-101 | verdict and tables as the model's, both maps kept consistent, and an accepted name and its key find each other |
| `KeyRegistry.KeyNameTable.ClearName` | src/ceslib/keynames.cpp:103-109 | true exactly when there was a name, none is left, both maps kept consistent |
| `KeyRegistry.KeyNameTable.Reclaim` | src/ceslib/server.cpp:5442-5463 | exactly the dropped keys leave the store and both maps are consistent again |
| `Prepay.ComputePrepayCost` | include/ces/feemult.h:50-78 | the window, the flat tail and the 64-bit wraps give the machine-level cost |
| `Prepay.WindowCost` | include/ces/feemult.h:62-75 | the loop adds the machine-level prices of the days in the window |
| `Prepay.CostIsSum` | include/ces/feemult.h:50-78 | under bounds that exclude 64-bit wraps the cost equals the sum over all added days exactly when the 32-bit day number does not wrap where it matters |
| `Prepay.WrappedDayIsCheap` | include/ces/feemult.h:64-73 | one day added to 2^32 - 1 held is not charged the full price |
| `Prepay.SplitFunding` | include/ces/feemult.h:50-78 | funding in two steps costs what funding at once does |
| `Prepay.SplitSum` | include/ces/feemult.h:45-49 | the same for the sum, without any bound |
| `Prepay.SumMonotone` | include/ces/feemult.h:45-49 | a higher multiplier or more days held never make the same days cheaper |
| `Prepay.SumBounds` | include/ces/feemult.h:45-49 | the price lies between fully discounted and flat |
| `FetchWorker.RunKeeps` | cesweb/src/engine.js:140-252 | every interleaving of any number of jobs and refills keeps the semaphore's invariant |
| `FetchWorker.ActiveIsExact` | cesweb/src/engine.js:386-390 | in every interleaving `active` counts the holders, is within the limit, and equals it while anyone waits |
| `FetchWorker.FirstComeFirstServed` | cesweb/src/engine.js:386-390 | grants followed by waiters are the arrivals in order: first come, first served, no overtaking |
| `FetchWorker.ReleasedOnce` | cesweb/src/engine.js:162-184 | a grant is released exactly once, when its coroutine ends by whichever way out; a coroutine that left early never asked |
| `FetchWorker.EveryoneIsServed` | cesweb/src/engine.js:231-245 | resuming whatever can move stops after a bounded number of steps, and then nobody waits |
| `FetchWorker.Engine.constructor` | cesweb/src/engine.js:37-70 | nothing active, nobody waiting |
| `FetchWorker.Engine.AcquireWorker` | cesweb/src/engine.js:386-389 | takes a free slot or joins the end of the line |
| `FetchWorker.Engine.ReleaseWorker` | cesweb/src/engine.js:390 | hands the slot to the first waiter or frees it |
| `FetchWorker.Engine.Begin` | cesweb/src/engine.js:118-124 | a new coroutine starts before the worker |
| `FetchWorker.Engine.Continue` | cesweb/src/engine.js:140-252 | from one await to the next, as the model, keeping the invariant |
| `DirectoryWalk.WalkIsListing` | cesweb/src/engine.js:278-293 | the walk with a stack lists exactly the files of the recursive listing, each as often |
| `Eviction.Walk` | cesweb/src/engine.js:276-293 | lists the shortest non-empty start of that walk that meets the stop rule, or all of it, and sums its idle bytes |
| `Eviction.ReadDir` | cesweb/src/engine.js:281-292 | one directory: lists its files, pushes its directories, stops as soon as the rule is met |
| `Eviction.OldestFirstSorts` | cesweb/src/engine.js:296 | sorted by access time, the same files, files of one time in listed order |
| `Eviction.Cache.EnsureRoom` | cesweb/src/engine.js:268-302 | nothing is deleted when there is room or none can be measured; otherwise the listing, the pool, the stopping point, the deleted files and the forgotten freshness entries |
| `Eviction.Cache.DeleteOldest` | cesweb/src/engine.js:297-301 | stops at the first point where what was really freed covers the need |
| `Eviction.ShortestPrefix` | cesweb/src/engine.js:297-301 | when deletions succeed, the shortest oldest-first part of the pool that covers the need, or all of it |
| `Eviction.NeedIsMet` | cesweb/src/engine.js:295-301 | when deletions succeed the need is met exactly when the listed bytes cover it, and if idle bytes cover it only idle files go |
| `Eviction.DeletedWasListed` | cesweb/src/engine.js:295-301 | only listed files are deleted, each at most once |
| `Eviction.OldestGoFirst` | cesweb/src/engine.js:296-301 | a file of the pool that stays was used no earlier than any that went |
| `Eviction.RecentFilesAreSafe` | cesweb/src/engine.js:291-295 | the listed idle bytes cover the need whenever those of the whole cache do and the scan limit is not reached |
| `Framing.RoundTrip` | cesweb/src/progws.js:25-30 | de-framing framed messages gives them back with nothing left |
| `Framing.DeframeCuts` | cesweb/src/progws.js:136-146 | de-framing only cuts: messages framed again plus the rest are the buffer |
| `Framing.DeframeResumes` | cesweb/src/progws.js:136-146 | scanning a stream in two pieces is scanning it whole |
| `Framing.OverlongIsRefused` | cesweb/src/progws.js:139-140 | a length over the cap ends the stream after delivering what came before |
| `ProgSession.DrainDelivers` | cesweb/src/progws.js:137-146 | the loop delivers the messages of the buffer in order, all of them unless it tears down, and touches nothing else |
| `ProgSession.ChunkingIsInvisible` | cesweb/src/progws.js:131-147 | every list of messages within the cap, however cut into chunks, is delivered whole, in order, with nothing left |
| `ProgSession.StepKeeps` | cesweb/src/progws.js:85-147 | every event keeps order, delivery and limits |
| `ProgSession.BridgeIsFaithful` | cesweb/src/progws.js:85-147 | in every history the program is sent the handshake and then the accepted messages in order, and the browser what the program framed |
| `ProgSockets.RunKeeps` | cesweb/src/progws.js:57-161 | every run of the pool keeps its tables exact and capped |
| `ProgSockets.PoolIsExact` | cesweb/src/progws.js:57-161 | the session set and the per-address counts say exactly which sockets are up, within both caps, and no entry outlives its sockets |
| `ProgSockets.EverySessionIsSound` | cesweb/src/progws.js:57-161 | every session of every run satisfies the session invariant |
| `ProgSockets.ProgWsManager.constructor` | cesweb/src/progws.js:33-51 | an empty pool |
| `ProgSockets.ProgWsManager.HandleSocket` | cesweb/src/progws.js:57-83 | admits exactly within both caps and to an allowed host |
| `ProgSockets.ProgWsManager.Teardown` | cesweb/src/progws.js:151-161 | the session is down and out of the pool, its slot given back once, the tables kept exact |
| `ProgSockets.ProgWsManager.Receive` | cesweb/src/progws.js:131-147 | makes the model's step and keeps the pool's invariant |
| `ProgSockets.ProgWsManager.Deliver` | cesweb/src/progws.js:137-146 | the loop computes the model's draining |
| `ProgSockets.ProgWsManager.StopAll` | cesweb/src/progws.js:163 | leaves no session and no count |
| `WireFormat.EncodeParses` | include/ces/protocol.h:55-72 | a packet whose tail has the length its fields announce is parsed back and passes the size test |
| `WireFormat.ParsedEncodes` | include/ces/protocol.h:66-84 | bytes that parse and pass the size test re-encode to themselves |
| `WireMessages.CrossRoundTrip` | include/ces/protocol.h:179-216 | refused exactly when the server name is over 255 bytes, otherwise read back unchanged and of the computed size |
| `WireMessages.CrossCanonical` | include/ces/protocol.h:66-84 | a cross transfer passing the size test re-encodes to the same bytes |
| `WireMessages.GossipRoundTrip` | include/ces/protocol.h:236-282 | of the computed size always, read back unchanged exactly when the message is within 1024 bytes |
| `WireMessages.GossipCanonical` | include/ces/protocol.h:266-282 | passing the size test, it re-encodes to the same bytes exactly when the length field is within 1024 |
| `WireMessages.LongGossipIsDropped` | include/ces/protocol.h:266-278 | a longer gossip never passes its reader's size test |
| `WireMessages.BulkRoundTrip` | include/ces/protocol.h:414-460 | refused exactly over 20 items, otherwise read back unchanged and of the computed size |
| `WireMessages.BulkCanonical` | include/ces/protocol.h:443-460 | a bulk transfer passing the size test re-encodes to the same bytes |
| `WireMessages.GetItems` | include/ces/protocol.h:450-457 | the reading loop gives the items of the tail |
| `WireMessages.PutItems` | include/ces/protocol.h:437-440 | the writing loop gives the items' bytes |
| `WireMessages.QueryRoundTrip` | include/ces/protocol.h:511-576 | a success without entries is refused; otherwise of the computed size, and read back exactly when the count fits its byte |
| `WireMessages.QueryCanonical` | include/ces/protocol.h:553-576 | a query result passing the size test re-encodes to the same bytes |
| `GossipSplit.SplitCapped` | src/ceslib/server.cpp:6283-6314 | every peer gets its cap or a common level, nothing is lost, and less is pocketed than there are peers with room |
| `GossipSplit.Round` | src/ceslib/server.cpp:6294-6308 | one round gives each active peer the share or its headroom and keeps those with room |
| `GossipSplit.FairIsUnique` | src/ceslib/server.cpp:6283-6285 | budget and caps admit only one such outcome |
| `GossipSplit.FairIsEven` | src/ceslib/server.cpp:6283-6285 | no allocation exceeds its cap, and whoever gets less than another is at its cap |
| `GossipSplit.FairSpends` | src/ceslib/server.cpp:6283-6285 | all caps are met exactly when the budget covers them; otherwise only a crumb is pocketed |

## Left out

- Sockets, asio, RUDP and `dial.cpp`: transport over libraries that are not part of this model.
- Signing, RandomX and key generation: signature checking is a parameter, signatures are 65 given bytes.
- logkv's files, flushes and the flush accumulators: a map with a journal over a snapshot stands for the store.
- Daily rent of accounts, aliases, key names and assets (`src/ceslib/server.cpp:5324-5460`): it rewrites and erases rows without a record until the snapshot that follows, so `Ledger.RunLoads` does not speak of a crash in between.
- VM execution, undo log, hooks and duplicate-request tables of `src/ceslib/server.cpp`: not modelled; a transfer a hook rejects is charged like any other refusal before validation.
- Gossip fan-out: choosing the peers is random; only the split of the budget is modelled.
- Fixed-size messages and the alias serializer: the same round trip with fewer cases.
- Key-name records on disk: one full record per name; the registry starts from the loaded map.
- Text decoding in the socket bridge: payloads stay bytes; the HTTP pages and the terminal are not modelled.
- Two coroutines of the fetch worker sharing a file: the model follows the semaphore, not the file contents.
- Eviction.Cache.EnsureRoom: the cache directory is a given tree, so files that appear during the walk are not captured, and stale partial downloads are skipped without recording their removal, which frees no counted bytes.
- SettlementClient.CesClientAsync.GossipTo: a gossip over 270 message bytes is no `Payload`. The source accepts up to 1024 and throws when it comes to send one, with the channel Busy, its ticket cleared and no packet out, so ticket conservation does not survive it; `SettlementFrames.GossipFrame` states the bound.
- LedgerTransfers.EveryExit: assumes a new row that is not empty and an opening cost below 2^63 less the balance cap.
- SecureHash.Sha256: defined by FIPS 180-4 for messages below 2^64 bits; beyond that the length is taken modulo 2^64 as in the code.
- Prepay.CostIsSum: states nothing about fees for which a 64-bit product or sum wraps.
- The buffer cursor of the wire messages: fields are cut from byte sequences, and running off the end is a failed read.
