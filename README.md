# chainspect block tracer, modelled in Dafny

chainspect re-executes one Ethereum block locally. An `ethereumjs` virtual machine runs the
block against a local state trie, and the trie is filled lazily from a remote node.

- **StateCache** (`src/vmtrace/stateCache.ts`) answers each query for an account (its nonce,
  balance and code) or for a storage slot.
  - It remembers, per call depth, which keys were already downloaded (`commitedState`). A
    key found in any frame from the current depth down to 0 is not fetched again.
  - Leaving a call either copies the current frame into its caller's frame (commit) or
    drops it (revert).
  - Per block number, it memoises the node's answers.
  - It writes what it downloads into the trie.
- **Blockchain** (`src/vmtrace/blockchain.ts`) is the mock chain that serves BLOCKHASH. It
  stores converted blocks under their height (unless they are uncles) and under their hash.
- **VmTrace** (`src/vmtrace/vmtrace.ts`) drives a block.
  - Before tracing, it loads the last 256 blocks and the block's uncles, and prefetches every
    account the block is known to touch.
  - It keeps the cache's depth in step with the engine's at each transaction and each
    instruction.
  - For each instruction that reads state, it issues the queries the instruction needs.
  - At the end it compares the gas used, the log bloom and the receipt trie with the header.

The Dafny modules follow those files:

| file | module | contents |
|---|---|---|
| `wrappers.dfy` | `Wrappers` | `Option`, `Result` and `Outcome` |
| `encoding.dfy` | `Encoding` | bytes, hexadecimal and decimal text, and the values they denote. `ToHex` stands for bn.js `toString(16)`, `ToDecimal` for a number's `toString()`, `PadStart` for `String.padStart`, `ToLower` for `toLowerCase`, `HexEncode`/`HexDecode` for Node's `Buffer` hex encoding (`toString("hex")`, `Buffer.from(s, "hex")`), `ToBytesBE` for bn.js `toArrayLike(Buffer, "be", n)`, `BytesValue` for the number a buffer denotes |
| `state_cache.dfy` | `StateCache` | the scope frames and their merge, the memo, the downloads, query processing, and the class `Cache` with the source's fields |
| `blockchain.dfy` | `Blockchain` | block conversion, `numToHex`, the block index, and the class `Chain` |
| `vmtrace.dfy` | `VmTrace` | the address and slot conversions, the per-instruction queries, depth reconciliation, the prefetch sets, the bloom union, and block verification |
| `tracer.dfy` | `Tracer` | the preparation (history and prefetch), the `beforeTx`, `afterTx` and `step` handlers as functions, and the class `BlockTracer` whose methods carry the handlers' shared variables |

Asynchrony is modelled by the order in which the awaits complete.

An asynchronous handler whose promise rejects never calls the engine's callback, so the
block stalls. A throw in a synchronous handler aborts the run. The model says which of
these happens (`Continue`, `Stall`, `Abort`).

## Model

| member | source | states |
|---|---|---|
| StateCache.KeyOf | src/vmtrace/stateCache.ts:152-176 | a code query is looked up as an account query; the key's address is the query address lower-cased; only storage queries (with a slot) carry a slot, and an unknown operation has no key |
| StateCache.MarkFrame | src/vmtrace/stateCache.ts:229-236 | recording a key makes exactly that key newly present in the frame; the code part is untouched |
| StateCache.MergeFrame | src/vmtrace/stateCache.ts:101-129 | the merged frame holds exactly the keys of parent and child; code and storage addresses are the unions |
| StateCache.AddKeys | src/vmtrace/stateCache.ts:105-114 | the copy loop yields the union of both key sets |
| StateCache.MergeStorageSlots | src/vmtrace/stateCache.ts:118-129 | the address-by-address copy yields, per address, the union of both frames' slots (an address new to the parent gets an empty entry first) |
| StateCache.MergeFrames | src/vmtrace/stateCache.ts:101-129 | the commit copy of accounts, code and storage produces exactly `MergeFrame` |
| StateCache.MarkTop | src/vmtrace/stateCache.ts:229-236 | recording touches only the current frame: depth and the set of depths are kept, and every other frame is unchanged |
| StateCache.MarkTopVisible | src/vmtrace/stateCache.ts:229-236 | recording at a non-negative depth keeps the stack well formed and adds exactly the recorded key to what is visible |
| StateCache.PushKeepsVisible | src/vmtrace/stateCache.ts:90-98 | entering a call goes one level deeper with a fresh frame and changes nothing that is visible, even when a stale frame is overwritten |
| StateCache.MergeKeepsVisible | src/vmtrace/stateCache.ts:101-131 | copying the top frame into its caller and stepping down keeps visibility unchanged |
| StateCache.CommitKeepsVisible | src/vmtrace/stateCache.ts:100-131 | above depth 0 a commit always succeeds, goes one level back and keeps visibility; at depth 0 with no frame -1 it succeeds exactly when frame 0 is empty |
| StateCache.RevertScope | src/vmtrace/stateCache.ts:89-131 | a call that reverts leaves visible exactly what was visible before it began, at the same depth |
| StateCache.CommitScope | src/vmtrace/stateCache.ts:89-131 | a call that commits leaves visible what was visible before plus exactly the keys its frame recorded |
| StateCache.NumberStringToHexString | src/vmtrace/stateCache.ts:56-65 | it throws exactly when the input already starts with "0x" |
| StateCache.EvenPad | src/vmtrace/stateCache.ts:61-63 | the digit count becomes even, adding at most one digit |
| StateCache.HexQuantityValue | src/vmtrace/stateCache.ts:52-65 | the nonce or balance written is "0x" and an even number of lower-case digits that denote the number |
| StateCache.AddressToBufferValue | src/vmtrace/stateCache.ts:67-74 | an address of at most 40 hex digits becomes 20 bytes that denote the same number |
| StateCache.StripLeadingZeros | src/vmtrace/stateCache.ts:239-248 | the result is a suffix of the input, everything removed was a zero byte, and it does not start with a zero byte |
| StateCache.StripLeadingZerosValue | src/vmtrace/stateCache.ts:239-248 | stripping leading zero bytes keeps the number the word denotes |
| StateCache.StoredWordValue | src/vmtrace/stateCache.ts:217-219 | the stored storage bytes denote the node's word and have no leading zero byte (zero becomes the empty string) |
| StateCache.FetchesAgree | src/vmtrace/stateCache.ts:273-335 | with a memo that repeats the node, nonce, balance, code and storage fetches return the node's answer and keep the memo sound |
| StateCache.Record | src/vmtrace/stateCache.ts:229-236 | recording changes only the frames, at the same depth, and either succeeds or throws a TypeError (missing frame) |
| StateCache.LoadAccount | src/vmtrace/stateCache.ts:188-215 | an account download leaves the frames, block number and memo block numbers unchanged and only adds requests |
| StateCache.LoadSlot | src/vmtrace/stateCache.ts:216-224 | a slot download leaves the frames, block number and memo block numbers unchanged and only adds requests |
| StateCache.Lookup | src/vmtrace/stateCache.ts:160-184 | the frame scan and the fetch keep the stack well formed at the same depth and keep the block number and the memo's block numbers |
| StateCache.Process | src/vmtrace/stateCache.ts:147-237 | processing a query keeps the stack well formed at the same depth and keeps the block number and the memo's block numbers |
| StateCache.ProcessHitIffVisible | src/vmtrace/stateCache.ts:156-184 | a query with a key returns early, changing nothing, exactly when its key is visible at some depth from the current one down to 0 |
| StateCache.ProcessErrors | src/vmtrace/stateCache.ts:147-237 | an unknown operation fails with a TypeError at depth >= 0 and "operation not found" below 0; a storage query without a slot fails with a TypeError; an unseen key for a block without a memo fails with "cache not initialized"; none of these change the state |
| StateCache.ProcessVisible | src/vmtrace/stateCache.ts:185-236 | a query adds to what is visible exactly its own key, and only when it was downloaded at depth >= 0; at depth >= 0 for an initialised block its key is visible afterwards |
| StateCache.LoadAccountAgrees | src/vmtrace/stateCache.ts:188-215 | an account download writes the node's nonce and balance (as even hex quantities) and its code under the address's 20 bytes, leaves storage alone, sends one request and keeps the memo sound |
| StateCache.LoadSlotAgrees | src/vmtrace/stateCache.ts:216-224 | a slot download writes the node's word, stripped of zero bytes, under the address bytes and the 32-byte slot, leaves accounts and code alone, sends one request and keeps the memo sound |
| StateCache.LoadSlotMemo | src/vmtrace/stateCache.ts:316-335 | a storage fetch returns the node's word, always sends a request, and keeps the memo sound |
| StateCache.ProcessStoresRemote | src/vmtrace/stateCache.ts:185-237 | a query keeps the memo sound; a download changes the trie as `LoadAccount` or `LoadSlot` says; a hit, an uninitialised block or an unknown operation at a negative depth leaves the state as it was |
| StateCache.ProcessAll | src/vmtrace/stateCache.ts:250-271 | a batch keeps the stack well formed at the same depth and keeps the memo's block numbers |
| StateCache.ProcessAllAfterFailure | src/vmtrace/stateCache.ts:257-267 | every query of the batch has its own `catch`, so a query that throws is logged and the batch goes on from the state it left; `Promise.all` never rejects |
| StateCache.ProcessAllVisible | src/vmtrace/stateCache.ts:250-271 | a batch at depth >= 0 for initialised blocks hides nothing and leaves every query's key visible, whatever the others' failures |
| StateCache.Cache.constructor | src/vmtrace/stateCache.ts:27-42 | a new cache is at block 0 and depth 0, with one empty frame and no memo |
| StateCache.Cache.SetBlockNumber | src/vmtrace/stateCache.ts:76-87 | a lower number is refused and changes nothing; otherwise the number is set and its memo is replaced by an empty one |
| StateCache.Cache.ChangeDepth | src/vmtrace/stateCache.ts:89-136 | the frames and depth become `StepDepth`'s result, or on a throw stay as they were; block number, memo, trie and requests are untouched |
| StateCache.Cache.Scan | src/vmtrace/stateCache.ts:160-184 | the downward loop over the frames finds the key exactly when it is visible |
| StateCache.Cache.RemoveZeroBytes | src/vmtrace/stateCache.ts:239-248 | the loop's slice is the input without its leading zero bytes and denotes the same number |
| StateCache.Cache.DownloadAccount | src/vmtrace/stateCache.ts:188-215 | the three fetches and the two trie writes give the state `LoadAccount` describes |
| StateCache.Cache.DownloadSlot | src/vmtrace/stateCache.ts:216-224 | the fetch, the zero-byte strip and the trie write give the state `LoadSlot` describes |
| StateCache.Cache.ProcessQuery | src/vmtrace/stateCache.ts:140-237 | the new state and the outcome are those of `Process` |
| StateCache.Cache.RecordKey | src/vmtrace/stateCache.ts:229-236 | marking the key gives the state and outcome `Record` describes |
| StateCache.Cache.ProcessQueries | src/vmtrace/stateCache.ts:250-271 | the batch leaves the cache in the state `ProcessAll` describes, each failure ignored |
| Blockchain.NumToHexAsWrittenZero | src/vmtrace/blockchain.ts:40-47 | as written, every number becomes "0x" and its digits, so zero becomes "0x0" and the zero branch is dead |
| Blockchain.NumToHexCanonical | src/vmtrace/blockchain.ts:40-47 | the corrected conversion denotes the number, with lower-case digits and no leading zero, is "0x" alone exactly for zero, and agrees with the written code on every other number |
| Blockchain.ConvertedKeepsValues | src/vmtrace/blockchain.ts:49-74 | conversion keeps hash, height, miner, the transaction list and each transaction's identity, and every rewritten quantity denotes its original number |
| Blockchain.ConvertBlock | src/vmtrace/blockchain.ts:49-74 | the loop over the transactions produces the converted block |
| Blockchain.IndexedKeys | src/vmtrace/blockchain.ts:16-25 | storing a block writes its hash key, and its height key unless it is an uncle; no other key changes |
| Blockchain.LookupRef | src/vmtrace/blockchain.ts:27-38 | a reference that is neither a buffer nor a big number gets no callback; a height of 2^53 or more throws |
| Blockchain.FindAfterIndexed | src/vmtrace/blockchain.ts:16-38 | a stored block is found by its hash, and by its height unless it is an uncle; an uncle leaves the height lookup as it was |
| Blockchain.Chain.constructor | src/vmtrace/blockchain.ts:8-14 | a new chain holds no blocks |
| Blockchain.Chain.PutBlock | src/vmtrace/blockchain.ts:16-25 | the index becomes `Indexed` of the old one |
| Blockchain.Chain.GetBlock | src/vmtrace/blockchain.ts:27-38 | a buffer is looked up as "0x" and its hex digits, a big number as its decimal text; other references get no callback, and a height of 2^53 or more throws |
| VmTrace.BnToAddressValue | src/vmtrace/vmtrace.ts:447-452 | the address text denotes the word; it has the 42 characters of an address exactly when the word is below 2^160, and then its trie key is the word's 20 bytes |
| VmTrace.BnToStorageSlotValue | src/vmtrace/vmtrace.ts:454-459 | a 256-bit word becomes 64 digits denoting it, and its trie key is the word's 32 bytes |
| VmTrace.Slice | src/vmtrace/vmtrace.ts:611 | the slice is never longer than asked, and inside the buffer it is exactly the asked range |
| VmTrace.StepQueriesShape | src/vmtrace/vmtrace.ts:471-650 | BLOCKHASH and untraced instructions query nothing; every query is at the traced block and has a key; calls query the account and then the code of one address; storage instructions make one storage query; code reads one code query; BALANCE, SELFDESTRUCT, CREATE and CREATE2 one account query |
| VmTrace.StepQueriesAddress | src/vmtrace/vmtrace.ts:472-501 | BALANCE, SELFDESTRUCT and the EXTCODE family query the address made from the top stack word, the CALL family the one made from the second word; that address denotes the word, and it has 40 digits, with the word's 20 bytes as trie key, exactly when the word is below 2^160 |
| VmTrace.StepQueriesErrors | src/vmtrace/vmtrace.ts:471-650 | BLOCKHASH, CREATE and untraced instructions never fail; a call with fewer than two stack slots and a one-operand read of an empty stack fail for a missing operand; CREATE2 fails on an offset or length of 2^53 or more, and succeeds with small ones and a 256-bit salt |
| VmTrace.StorageQueryKey | src/vmtrace/vmtrace.ts:502-529 | SLOAD and SSTORE query the executing address, lower-cased, at the slot made from the top word, and that slot's trie key denotes the word |
| VmTrace.Create2Inputs | src/vmtrace/vmtrace.ts:600-626 | CREATE2 queries the derived address of the current address, the 32-byte big-endian salt (which denotes the word) and exactly the memory range given by offset and length |
| VmTrace.CallSecondQueryHits | src/vmtrace/vmtrace.ts:557-599 | after a call's account query, its code query is always answered from the frames |
| VmTrace.ReconcileMeaning | src/vmtrace/vmtrace.ts:290-306 | the depth stays when the engine's depth plus one equals the tracked one; otherwise it moves by the full difference, and a move back reverts exactly when the top of the stack is 0; an empty stack on a move back is unreadable |
| VmTrace.ReconcileJumpRefused | src/vmtrace/vmtrace.ts:290-306 | a move of more than one level makes `changeDepth` throw |
| VmTrace.AppendAccountQueries | src/vmtrace/vmtrace.ts:161-178 | one account query at the given block is appended per address; the earlier queries stay in front |
| VmTrace.CollectMiners | src/vmtrace/vmtrace.ts:106-121 | the set collected is exactly the uncle miners |
| VmTrace.CollectTxAddresses | src/vmtrace/vmtrace.ts:126-140 | the loop collects exactly the senders, the non-empty recipients and the addresses created by transactions without a recipient |
| VmTrace.PrefetchSets | src/vmtrace/vmtrace.ts:142-158 | the balance set is senders, uncle miners, recipients, created addresses and the miner; the code set is the recipients |
| VmTrace.PrefetchQueries | src/vmtrace/vmtrace.ts:142-178 | the prefetch batch is account queries at the previous block, one per balance address and one more per recipient |
| VmTrace.PrefetchedVisible | src/vmtrace/vmtrace.ts:161-182 | once the prefetch batch is processed at depth >= 0, every prefetched account is visible |
| VmTrace.BitOrUpper | src/vmtrace/vmtrace.ts:395 | the or of two bytes holds every bit of both |
| VmTrace.BitOrLeast | src/vmtrace/vmtrace.ts:395 | any number holding both operands' bits holds the or's bits |
| VmTrace.OrBloomCovers | src/vmtrace/vmtrace.ts:395 | or-ing blooms gives a bloom that covers both |
| VmTrace.OrBloomLeast | src/vmtrace/vmtrace.ts:395 | any bloom covering both covers their or |
| VmTrace.AggregateIsUnion | src/vmtrace/vmtrace.ts:392-398 | the block bloom covers every transaction's bloom and is covered by any bloom that covers them all |
| VmTrace.TxListGetBloom | src/vmtrace/vmtrace.ts:392-398 | the loop's result is the union of the transactions' blooms |
| VmTrace.VerifyBlockReports | src/vmtrace/vmtrace.ts:362-390 | with a header gas below 2^53 the check does not throw, and each mismatch is reported exactly when its two sides differ |
| VmTrace.ConcludeOnlyChecksBloom | src/vmtrace/vmtrace.ts:333-356 | "block execution OK" is printed exactly when the run succeeded, the header gas fits a number and the blooms agree; gas and receipt mismatches do not change it |
| Tracer.HistoryStart | src/vmtrace/vmtrace.ts:74-77 | history starts 256 heights back, or at 0 |
| Tracer.NumberKeyInjective | src/vmtrace/blockchain.ts:21-23 | two heights share an index key exactly when they are equal |
| Tracer.IndexedHeight | src/vmtrace/blockchain.ts:16-25 | storing one block changes a height's lookup only when the block is stored under that height |
| Tracer.PutAllOtherHeight | src/vmtrace/vmtrace.ts:106-121 | uncles stored as uncles, and blocks at other heights, leave a height's lookup as it was |
| Tracer.PutAllHeight | src/vmtrace/vmtrace.ts:89-97 | a height finds the last block stored at that height |
| Tracer.HistoryKeepsCanonicalHeights | src/vmtrace/vmtrace.ts:74-121 | with uncles stored as uncles, each of the last 256 heights finds the node's canonical block |
| Tracer.UncleShadowsAncestor | src/vmtrace/vmtrace.ts:113 | as written, the last uncle at a height in the window replaces the canonical block at that height |
| Tracer.EnterTxMeaning | src/vmtrace/vmtrace.ts:208-219 | `beforeTx` goes one level deeper, hides nothing, and continues exactly when the gas limit fits a number, which it then records |
| Tracer.LeaveTxReports | src/vmtrace/vmtrace.ts:221-268 | each status or gas disagreement with the receipt is reported exactly when it occurs, after the earlier reports |
| Tracer.LeaveTxMeaning | src/vmtrace/vmtrace.ts:221-279 | `afterTx` never stalls; it continues exactly when the receipt exists, the depth change succeeds and the gas fits a number, and then advances the transaction, the depth and the gas total |
| Tracer.TransactionScope | src/vmtrace/vmtrace.ts:208-279 | a failed transaction leaves visible what was visible before it; a successful one adds exactly what it recorded |
| Tracer.MoveDepth | src/vmtrace/vmtrace.ts:291-306 | no move keeps the stack; an unreadable stack is an error; a successful move keeps it well formed |
| Tracer.RunQueries | src/vmtrace/vmtrace.ts:471-650 | awaiting the queries keeps the stack well formed at the same depth |
| Tracer.RunQueriesSucceed | src/vmtrace/vmtrace.ts:471-650 | at depth >= 0 with initialised blocks, every awaited query succeeds and the run is `ProcessAll` |
| Tracer.RunQueriesMemo | src/vmtrace/vmtrace.ts:471-650 | awaiting queries keeps the block number and the memo's block numbers |
| Tracer.TraceStepFollowsEngine | src/vmtrace/vmtrace.ts:284-315 | a step never aborts; a gas reading of 2^53 or more stalls with nothing changed; otherwise the tracked depth becomes the engine's plus one |
| Tracer.TraceStepLoads | src/vmtrace/vmtrace.ts:284-315 | when the depth move succeeds at depth >= 0, the step continues, hides nothing, and leaves every key the instruction queried visible |
| Tracer.BlockTracer.constructor | src/vmtrace/vmtrace.ts:33-51 | a new tracer starts with no transactions traced, depth 0 and no gas counted |
| Tracer.BlockTracer.Prepare | src/vmtrace/vmtrace.ts:62-182 | a block below the cache's stalls with nothing changed; otherwise the history is stored, the memo for the previous block is fresh, and the prefetch batch is processed |
| Tracer.BlockTracer.Load | src/vmtrace/vmtrace.ts:70-182 | the history is stored, the counters are reset, and the prefetch batch of account queries is processed |
| Tracer.BlockTracer.FetchAccounts | src/vmtrace/vmtrace.ts:126-182 | the prefetch batch is built from the block and the uncle miners and processed as `ProcessAll` describes |
| Tracer.BlockTracer.StoreHistory | src/vmtrace/vmtrace.ts:74-123 | the blocks become `History`, and the uncle miners are returned |
| Tracer.BlockTracer.StoreAncestors | src/vmtrace/vmtrace.ts:74-97 | the ancestors are stored lowest first |
| Tracer.BlockTracer.StoreBlocks | src/vmtrace/vmtrace.ts:89-97 | the loop stores the blocks at the heights in order |
| Tracer.BlockTracer.StoreUncles | src/vmtrace/vmtrace.ts:106-121 | the loop stores the uncles as uncles and collects their miners |
| Tracer.BlockTracer.BeforeTx | src/vmtrace/vmtrace.ts:208-219 | the handler's new variables, cache state and continuation are `EnterTx`'s |
| Tracer.BlockTracer.AfterTx | src/vmtrace/vmtrace.ts:221-279 | the handler's new variables, cache state and continuation are `LeaveTx`'s |
| Tracer.BlockTracer.Step | src/vmtrace/vmtrace.ts:284-315 | the handler's new variables, cache state and continuation are `TraceStep`'s |
| Tracer.BlockTracer.VmStep | src/vmtrace/vmtrace.ts:461-653 | an instruction whose operands cannot be read stalls with nothing changed; otherwise its queries are awaited in order, as `RunQueries` describes |
| Tracer.BlockTracer.Finish | src/vmtrace/vmtrace.ts:317-358 | the verdict is `Conclude` on the run, with the gas total the handlers counted, and the mismatches are `VerifyBlock`'s |

## Left out

- The node (web3) is a parameter: a `Remote` of total functions, plus a counter of the requests sent. Latency, timers and failures of the node are not modelled.
- Progress bars, console output and the `web3Timer` statistics change nothing the model tracks, and are left out.
- `Promise.all` over the ancestor and uncle downloads, the three account fetches and the prefetch batch is modelled as awaits in issue order.
- Concurrent interleavings between those awaits are not modelled.
- `putAccount` reading the old account to keep its `codeHash` is not modelled. The trie is three maps: accounts (nonce and balance as text), code, and storage.
- The `Account` class and RLP encoding are not modelled.
- `toLowerCase` is modelled on ASCII letters only.
- `toBN` and `new BN` parsing of arbitrary text is not modelled. Numbers enter the model as `nat` and numeric strings as decimal text.
- Address derivations are uninterpreted functions of their inputs: `getContractAddress`, `getCreate2Address` and `toChecksumAddress`, all of them keccak based.
- The receipt trie (`txReceiptGetTrie`) is not built. Its root is a parameter of the run.
- The virtual machine is not modelled. Its results per transaction and per step (stack, memory, depth, gas left) are parameters of the handlers.
- `from_RPC` and the `Common` settings in `convertBlock` are not modelled. The converted block keeps the fields the tracer reads.
- The `DEBUG` branches, `debug`, `dumpCache` and `getDetails` do nothing the tracer relies on.
- VmTrace.StorageQueryKey: assumes the checksum of an address only changes the case of its letters. `toChecksumAddress` is uninterpreted here.
- Tracer.BlockTracer.Prepare: stores the uncles with their flag set (`History`), where vmtrace.ts:113 calls `putBlock` without it; the code as written is `HistoryAsWritten`, under Findings.
- Tracer.BlockTracer.Load: stores the uncles with their flag set (`History`), where vmtrace.ts:113 calls `putBlock` without it; the code as written is `HistoryAsWritten`, under Findings.
- Tracer.BlockTracer.StoreHistory: stores the uncles with their flag set (`History`), where vmtrace.ts:113 calls `putBlock` without it; the code as written is `HistoryAsWritten`, under Findings.
- Tracer.BlockTracer.StoreUncles: stores the uncles with their flag set (`History`), where vmtrace.ts:113 calls `putBlock` without it; the code as written is `HistoryAsWritten`, under Findings.
- Blockchain.ConvertBlock: a zero gas, gas price, value or difficulty becomes "0x" (the corrected `NumToHex`), where the code as written gives "0x0" (`NumToHexAsWritten`, under Findings). Both denote zero.
- Blockchain.Chain.PutBlock: stores the block converted as `ConvertBlock` says, so a zero quantity is "0x" rather than the "0x0" the code as written stores.
- The `traceBlock` promise never resolves after a stall. The model reports `Stall` rather than waiting.

## Findings

| source | as written | input that shows it | evidently intended | confidence | as-written member | corrected member |
|---|---|---|---|---|---|---|
| src/vmtrace/blockchain.ts:40-47 | bn.js renders hex digits without "0x", so the test for "0x0"/"0x00" never holds and zero becomes "0x0" | a transaction with value 0: `numToHex(0)` gives "0x0" | zero as "0x", the empty byte string | not executed | Blockchain.NumToHexAsWrittenZero | Blockchain.NumToHexCanonical |
| src/vmtrace/vmtrace.ts:113 | uncles are stored with `putBlock(uncleBlock)`, without the uncle flag, so they are indexed by height too | an uncle at height h with h in the last 256 heights and a block different from the canonical one: BLOCKHASH(h) then finds the uncle | uncles indexed by hash only, so each height finds its canonical block | not executed | Tracer.UncleShadowsAncestor | Tracer.HistoryKeepsCanonicalHeights |
