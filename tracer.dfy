/**
 * Tracing one block: the preparation that stores the last 256 blocks and the uncles and
 * fetches every account the block is known to touch, then the engine's three events --
 * before a transaction, at each instruction, after a transaction -- and the closing
 * comparison with the chain's header. The handlers' shared variables are the fields of
 * `BlockTracer`; each handler is specified by a function on those variables and on the
 * cache's state.
 */
module Tracer {
  import opened Wrappers
  import opened Encoding
  import opened StateCache
  import opened Blockchain
  import opened VmTrace

  // ---------------------------------------------------------------- the block history

  /** The node as the preparation asks it for a block at a height and for the uncles of
      a block. */
  datatype Node = Node(blockAt: nat -> RpcBlock, uncleAt: (nat, nat) -> RpcBlock)

  /** The block to trace, as far as the preparation reads it. */
  datatype TracedBlock = TracedBlock(number: nat, miner: string, txs: seq<BlockTx>, uncleCount: nat)

  /** The first of the (at most) 256 heights before `n`. */
  function HistoryStart(n: nat): (start: nat)
    ensures start <= n && n - start <= 256
    ensures n >= 256 ==> n - start == 256
  {
    if n < 256 then 0 else n - 256
  }

  /** The node's blocks at `count` heights from `start` on, lowest first. */
  function Blocks(node: Node, start: nat, count: nat): (r: seq<RpcBlock>)
    ensures |r| == count
  {
    seq(count, i requires 0 <= i < count => node.blockAt(start + i))
  }

  function Ancestors(node: Node, n: nat): (r: seq<RpcBlock>)
    ensures |r| == n - HistoryStart(n)
  {
    Blocks(node, HistoryStart(n), n - HistoryStart(n))
  }

  function Uncles(node: Node, n: nat, count: nat): (r: seq<RpcBlock>)
    ensures |r| == count
  {
    seq(count, u requires 0 <= u < count => node.uncleAt(n, u))
  }

  function UncleMiners(node: Node, n: nat, count: nat): seq<string>
  {
    seq(count, u requires 0 <= u < count => node.uncleAt(n, u).miner)
  }

  /** Stores the blocks one after another. */
  function PutAll(blocks: map<string, StoredBlock>, bs: seq<RpcBlock>, isUncle: bool): map<string, StoredBlock>
    decreases |bs|
  {
    if bs == [] then blocks else Indexed(PutAll(blocks, bs[..|bs| - 1], isUncle), bs[|bs| - 1], isUncle)
  }

  /** Storing one more block of a list indexes it on top of the blocks before it. */
  lemma PutAllNext(blocks: map<string, StoredBlock>, bs: seq<RpcBlock>, k: nat, isUncle: bool,
                    before: map<string, StoredBlock>, after: map<string, StoredBlock>)
    requires k < |bs|
    requires before == PutAll(blocks, bs[..k], isUncle) && after == Indexed(before, bs[k], isUncle)
    ensures after == PutAll(blocks, bs[..k + 1], isUncle)
  {
    assert bs[..k + 1][..k] == bs[..k];
  }

  lemma UncleMinersNext(node: Node, n: nat, u: nat)
    ensures UncleMiners(node, n, u + 1) == UncleMiners(node, n, u) + [node.uncleAt(n, u).miner]
  {
  }

  /** The history as written: uncles are stored without their flag, like ancestors. */
  function HistoryAsWritten(blocks: map<string, StoredBlock>, node: Node, n: nat, count: nat): map<string, StoredBlock>
  {
    PutAll(PutAll(blocks, Ancestors(node, n), false), Uncles(node, n, count), false)
  }

  /** The history as intended: uncles are stored as uncles, under their hash only. */
  function History(blocks: map<string, StoredBlock>, node: Node, n: nat, count: nat): map<string, StoredBlock>
  {
    PutAll(PutAll(blocks, Ancestors(node, n), false), Uncles(node, n, count), true)
  }

  /** The node reports each ancestor at its own height, and every hash carries "0x". */
  predicate ConsistentHistory(node: Node, n: nat, count: nat)
  {
    && (forall i :: 0 <= i < |Ancestors(node, n)| ==>
          Ancestors(node, n)[i].number == HistoryStart(n) + i && HasHexPrefix(Ancestors(node, n)[i].hash))
    && (forall u :: 0 <= u < |Uncles(node, n, count)| ==> HasHexPrefix(Uncles(node, n, count)[u].hash))
  }

  lemma NumberKeyInjective(a: nat, b: nat)
    ensures NumberKey(a) == NumberKey(b) <==> a == b
  {
    ToDecimalValue(a);
    ToDecimalValue(b);
  }

  /** Storing one block changes what a height finds only when the block is stored under
      that height. */
  lemma IndexedHeight(blocks: map<string, StoredBlock>, b: RpcBlock, isUncle: bool, h: nat)
    requires HasHexPrefix(b.hash)
    ensures Find(Indexed(blocks, b, isUncle), NumberKey(h)) ==
      if !isUncle && b.number == h then Some(Converted(b)) else Find(blocks, NumberKey(h))
  {
    IndexedKeys(blocks, b, isUncle);
    DecimalIsNotHex(NumberKey(h));
    NumberKeyInjective(b.number, h);
  }

  /** Uncles, and blocks at other heights, leave what a height finds as it was. */
  lemma {:induction false} PutAllOtherHeight(blocks: map<string, StoredBlock>, bs: seq<RpcBlock>, isUncle: bool, h: nat)
    requires forall i :: 0 <= i < |bs| ==> HasHexPrefix(bs[i].hash)
    requires isUncle || forall i :: 0 <= i < |bs| ==> bs[i].number != h
    ensures Find(PutAll(blocks, bs, isUncle), NumberKey(h)) == Find(blocks, NumberKey(h))
    decreases |bs|
  {
    if bs != [] {
      var init := bs[..|bs| - 1];
      assert forall i :: 0 <= i < |init| ==> init[i] == bs[i];
      PutAllOtherHeight(blocks, init, isUncle, h);
      IndexedHeight(PutAll(blocks, init, isUncle), bs[|bs| - 1], isUncle, h);
    }
  }

  /** A height finds the last block stored at that height. */
  lemma {:induction false} PutAllHeight(blocks: map<string, StoredBlock>, bs: seq<RpcBlock>, j: nat, h: nat)
    requires forall i :: 0 <= i < |bs| ==> HasHexPrefix(bs[i].hash)
    requires j < |bs| && bs[j].number == h && forall i :: j < i < |bs| ==> bs[i].number != h
    ensures Find(PutAll(blocks, bs, false), NumberKey(h)) == Some(Converted(bs[j]))
    decreases |bs|
  {
    var init, last := bs[..|bs| - 1], bs[|bs| - 1];
    IndexedHeight(PutAll(blocks, init, false), last, false, h);
    if j < |bs| - 1 {
      assert forall i :: 0 <= i < |init| ==> init[i] == bs[i];
      PutAllHeight(blocks, init, j, h);
    }
  }

  /** With uncles stored as uncles, every one of the last 256 heights finds its canonical
      block, whatever the uncles are. */
  lemma HistoryKeepsCanonicalHeights(blocks: map<string, StoredBlock>, node: Node, n: nat, count: nat, h: nat)
    requires ConsistentHistory(node, n, count)
    requires HistoryStart(n) <= h < n
    ensures Find(History(blocks, node, n, count), NumberKey(h)) == Some(Converted(node.blockAt(h)))
  {
    var anc := Ancestors(node, n);
    var j := h - HistoryStart(n);
    assert anc[j] == node.blockAt(h);
    PutAllHeight(blocks, anc, j, h);
    PutAllOtherHeight(PutAll(blocks, anc, false), Uncles(node, n, count), true, h);
  }

  /** As written, the last uncle takes over its height: a BLOCKHASH at that height finds the
      uncle, and differs from the intended history whenever the uncle is not the canonical
      block. */
  lemma UncleShadowsAncestor(blocks: map<string, StoredBlock>, node: Node, n: nat, count: nat)
    requires ConsistentHistory(node, n, count) && count > 0
    requires HistoryStart(n) <= node.uncleAt(n, count - 1).number < n
    ensures var u := node.uncleAt(n, count - 1);
      && Find(HistoryAsWritten(blocks, node, n, count), NumberKey(u.number)) == Some(Converted(u))
      && (Converted(u) != Converted(node.blockAt(u.number)) ==>
            Find(HistoryAsWritten(blocks, node, n, count), NumberKey(u.number))
              != Find(History(blocks, node, n, count), NumberKey(u.number)))
  {
    var us := Uncles(node, n, count);
    var u := node.uncleAt(n, count - 1);
    assert us[count - 1] == u;
    PutAllHeight(PutAll(blocks, Ancestors(node, n), false), us, count - 1, u.number);
    HistoryKeepsCanonicalHeights(blocks, node, n, count, u.number);
  }

  // ---------------------------------------------------------------- the handlers' variables

  /** A transaction's receipt from the node: whether it succeeded and the gas it used. */
  datatype Receipt = Receipt(status: bool, gasUsed: nat)

  /** The engine's result for a transaction: whether it failed and the gas it used. */
  datatype TxRun = TxRun(failed: bool, gasUsed: nat)

  /** The messages that report a disagreement with the chain, by transaction index. */
  datatype Diagnostic = FailedOnlyHere(tx: nat) | FailedOnlyOnChain(tx: nat) | GasUsedDiffers(tx: nat)

  /** How the engine goes on after a handler: normally; never, because an asynchronous
      handler threw and its callback is not called; or with the block run failing, because
      a synchronous handler threw. */
  datatype Continuation = Continue | Stall(error: TraceError) | Abort(error: TraceError)

  /** The variables the handlers share. */
  datatype Progress = Progress(
    txTracker: nat, depth: int, gasUsedTX: nat, gasUsedCurrent: nat, txGasLimit: nat,
    diagnostics: seq<Diagnostic>)

  /** A handler's effect: the new variables, the cache's new state and how the engine goes on. */
  datatype Handled = Handled(progress: Progress, cache: CacheState, next: Continuation)

  // ---------------------------------------------------------------- before and after a transaction

  /** `beforeTx`: one level deeper, the running gas total noted, and the transaction's gas
      limit taken as a number, which throws from 2^53 on. */
  function EnterTx(p: Progress, st: CacheState, gasLimit: nat): Handled
  {
    var p1 := p.(depth := p.depth + 1, gasUsedCurrent := p.gasUsedTX);
    var st1 := st.(scopes := Push(st.scopes));
    if gasLimit >= SafeNumberBound then Handled(p1, st1, Stall(UnsafeNumber))
    else Handled(p1.(txGasLimit := gasLimit), st1, Continue)
  }

  /** The report when the engine and the receipt disagree on whether the transaction failed. */
  function StatusReport(t: nat, rc: Receipt, run: TxRun): seq<Diagnostic>
  {
    if run.failed && rc.status then [FailedOnlyHere(t)]
    else if !run.failed && !rc.status then [FailedOnlyOnChain(t)]
    else []
  }

  /** The report when the gas used differs, compared as decimal text. */
  function GasReport(t: nat, rc: Receipt, run: TxRun): seq<Diagnostic>
  {
    if ToDecimal(rc.gasUsed) != ToDecimal(run.gasUsed) then [GasUsedDiffers(t)] else []
  }

  /** `afterTx`: the status check against the receipt, one level back reverting exactly when
      the transaction failed, the gas check, the next transaction, and the gas total, which
      takes the gas as a number. */
  function LeaveTx(p: Progress, st: CacheState, receipts: seq<Receipt>, run: TxRun): Handled
  {
    if p.txTracker >= |receipts| then Handled(p, st, Abort(MissingReceipt))
    else
      var t, rc := p.txTracker, receipts[p.txTracker];
      var p1 := p.(diagnostics := p.diagnostics + StatusReport(t, rc, run));
      match StepDepth(st.scopes, -1, run.failed)
      case Err(e) => Handled(p1, st, Abort(CacheFailure(e)))
      case Ok(sc) =>
        var p2 := p1.(diagnostics := p1.diagnostics + GasReport(t, rc, run), depth := p.depth - 1, txTracker := t + 1);
        if run.gasUsed >= SafeNumberBound then Handled(p2, st.(scopes := sc), Abort(UnsafeNumber))
        else Handled(p2.(gasUsedTX := p.gasUsedTX + run.gasUsed), st.(scopes := sc), Continue)
  }

  /** Entering a transaction adds a level and hides nothing; it only stalls on a gas limit
      too large for a number. */
  lemma EnterTxMeaning(p: Progress, st: CacheState, gasLimit: nat)
    requires WellFormed(st.scopes)
    ensures var r := EnterTx(p, st, gasLimit);
      && WellFormed(r.cache.scopes) && r.cache.scopes.depth == st.scopes.depth + 1
      && (forall k :: Visible(r.cache.scopes, k) <==> Visible(st.scopes, k))
      && r.progress.depth == p.depth + 1
      && (r.next == Continue <==> gasLimit < SafeNumberBound)
      && (r.next == Continue ==> r.progress.txGasLimit == gasLimit)
  {
    PushKeepsVisible(st.scopes);
  }

  /** After a transaction, each disagreement with its receipt is reported exactly when it
      exists: the failure status, and -- once the cache has left the transaction's level --
      the gas used, compared as decimal text. Earlier reports are kept. */
  lemma LeaveTxReports(p: Progress, st: CacheState, receipts: seq<Receipt>, run: TxRun)
    requires p.txTracker < |receipts|
    ensures var r := LeaveTx(p, st, receipts, run);
      && |p.diagnostics| <= |r.progress.diagnostics| && r.progress.diagnostics[..|p.diagnostics|] == p.diagnostics
      && var added, t := r.progress.diagnostics[|p.diagnostics|..], p.txTracker;
      && (FailedOnlyHere(t) in added <==> run.failed && receipts[t].status)
      && (FailedOnlyOnChain(t) in added <==> !run.failed && !receipts[t].status)
      && (GasUsedDiffers(t) in added <==>
            StepDepth(st.scopes, -1, run.failed).Ok? && receipts[t].gasUsed != run.gasUsed)
  {
    var t, rc := p.txTracker, receipts[p.txTracker];
    var r := LeaveTx(p, st, receipts, run);
    var status := StatusReport(t, rc, run);
    var added := r.progress.diagnostics[|p.diagnostics|..];
    match StepDepth(st.scopes, -1, run.failed) {
      case Err(_) =>
        assert r.progress.diagnostics == p.diagnostics + status;
        assert added == status;
      case Ok(_) =>
        ToDecimalValue(rc.gasUsed);
        ToDecimalValue(run.gasUsed);
        var gas := GasReport(t, rc, run);
        assert gas != [] <==> rc.gasUsed != run.gasUsed;
        assert r.progress.diagnostics == p.diagnostics + status + gas;
        assert added == status + gas;
    }
  }

  /** `afterTx` never stalls: it goes on exactly when the receipt exists, the cache can leave
      the level and the gas is a safe number, and then the tracker, the depth and the gas
      total move by one transaction. */
  lemma LeaveTxMeaning(p: Progress, st: CacheState, receipts: seq<Receipt>, run: TxRun)
    ensures var r := LeaveTx(p, st, receipts, run);
      && !r.next.Stall?
      && (r.next == Continue <==>
            p.txTracker < |receipts| && StepDepth(st.scopes, -1, run.failed).Ok? && run.gasUsed < SafeNumberBound)
      && (r.next == Continue ==>
            && r.progress.txTracker == p.txTracker + 1 && r.progress.depth == p.depth - 1
            && r.progress.gasUsedTX == p.gasUsedTX + run.gasUsed
            && r.cache == st.(scopes := StepDepth(st.scopes, -1, run.failed).value))
  {
  }

  /** A transaction is one level of the cache: if it fails, what is visible afterwards is
      what was visible before it, whatever its instructions recorded; if it succeeds, it
      adds exactly what it recorded. */
  lemma TransactionScope(p: Progress, st: CacheState, receipts: seq<Receipt>, run: TxRun, recorded: Frame)
    requires WellFormed(st.scopes) && st.scopes.depth >= 0 && p.txTracker < |receipts|
    ensures var inside := st.(scopes := ScopeStack(st.scopes.frames[st.scopes.depth + 1 := recorded], st.scopes.depth + 1));
      var r := LeaveTx(p, inside, receipts, run);
      && r.cache.scopes.depth == st.scopes.depth && WellFormed(r.cache.scopes)
      && (forall k :: Visible(r.cache.scopes, k) <==> Visible(st.scopes, k) || (!run.failed && InFrame(recorded, k)))
  {
    if run.failed {
      RevertScope(st.scopes, recorded);
    } else {
      CommitScope(st.scopes, recorded);
    }
  }

  // ---------------------------------------------------------------- at each instruction

  function LiftError(r: Result<ScopeStack, CacheError>): Result<ScopeStack, TraceError>
  {
    match r
    case Ok(s) => Ok(s)
    case Err(e) => Err(CacheFailure(e))
  }

  /** The cache's depth change for a step, or the error that stops the step. */
  function MoveDepth(sc: ScopeStack, change: DepthChange): (r: Result<ScopeStack, TraceError>)
    requires WellFormed(sc)
    ensures r.Ok? ==> WellFormed(r.value)
    ensures change.Same? ==> r == Ok(sc)
    ensures change.Unreadable? ==> r == Err(MissingOperand)
  {
    match change
    case Same => Ok(sc)
    case Unreadable => Err(MissingOperand)
    case Deeper(d) => LiftError(StepDepth(sc, d, false))
    case Shallower(d, revert) => LiftError(StepDepth(sc, d, revert))
  }

  datatype Ran = Ran(state: CacheState, failure: Option<CacheError>)

  /** Queries awaited one after another; the first that throws ends the run. */
  function RunQueries(st: CacheState, remote: Remote, qs: seq<Query>): (r: Ran)
    requires WellFormed(st.scopes)
    ensures WellFormed(r.state.scopes) && r.state.scopes.depth == st.scopes.depth
    decreases |qs|
  {
    if qs == [] then Ran(st, None)
    else
      var p := Process(st, remote, qs[0]);
      if p.outcome.Failed? then Ran(p.state, Some(p.outcome.error)) else RunQueries(p.state, remote, qs[1..])
  }

  /** At a non-negative depth, queries whose blocks are initialised all succeed, and running
      them until the first failure is running them all. */
  lemma {:induction false} RunQueriesSucceed(st: CacheState, remote: Remote, qs: seq<Query>)
    requires WellFormed(st.scopes) && st.scopes.depth >= 0
    requires forall i :: 0 <= i < |qs| ==> qs[i].block in st.memo && KeyOf(qs[i]).Some?
    ensures RunQueries(st, remote, qs) == Ran(ProcessAll(st, remote, qs), None)
    decreases |qs|
  {
    if qs != [] {
      ProcessVisible(st, remote, qs[0]);
      var next := Process(st, remote, qs[0]).state;
      assert forall i :: 0 <= i < |qs[1..]| ==> qs[1..][i] == qs[i + 1];
      RunQueriesSucceed(next, remote, qs[1..]);
    }
  }

  /** The step handler: the gas used so far is taken as a number (throwing from 2^53 on),
      the tracked depth follows the engine's, the cache changes depth with it, and the
      instruction's queries are made at the given block. */
  function TraceStep(p: Progress, st: CacheState, remote: Remote, block: int, s: StepState, dv: Derivation): Handled
    requires WellFormed(st.scopes)
  {
    if s.gasLeft >= SafeNumberBound then Handled(p, st, Stall(UnsafeNumber))
    else
      var p1 := p.(depth := s.depth + 1);
      match MoveDepth(st.scopes, Reconcile(p.depth, s.depth, s.stack))
      case Err(e) => Handled(p1, st, Stall(e))
      case Ok(sc) =>
        var st1 := st.(scopes := sc);
        match StepQueries(s, block, dv)
        case Err(e) => Handled(p1, st1, Stall(e))
        case Ok(qs) =>
          var ran := RunQueries(st1, remote, qs);
          Handled(p1, ran.state, if ran.failure.Some? then Stall(CacheFailure(ran.failure.value)) else Continue)
  }

  /** A step never aborts the block; apart from a gas reading too large for a number, which
      changes nothing, it adopts the engine's depth, and it changes nothing but the cache. */
  lemma TraceStepFollowsEngine(p: Progress, st: CacheState, remote: Remote, block: int, s: StepState, dv: Derivation)
    requires WellFormed(st.scopes)
    ensures var r := TraceStep(p, st, remote, block, s, dv);
      && !r.next.Abort?
      && (s.gasLeft >= SafeNumberBound ==> r == Handled(p, st, Stall(UnsafeNumber)))
      && (s.gasLeft < SafeNumberBound ==> r.progress == p.(depth := s.depth + 1))
      && r.cache.blockNumber == st.blockNumber && r.cache.memo.Keys == st.memo.Keys
  {
    if s.gasLeft < SafeNumberBound {
      var m := MoveDepth(st.scopes, Reconcile(p.depth, s.depth, s.stack));
      if m.Ok? && StepQueries(s, block, dv).Ok? {
        RunQueriesMemo(st.(scopes := m.value), remote, StepQueries(s, block, dv).value);
      }
    }
  }

  lemma {:induction false} RunQueriesMemo(st: CacheState, remote: Remote, qs: seq<Query>)
    requires WellFormed(st.scopes)
    ensures RunQueries(st, remote, qs).state.blockNumber == st.blockNumber
    ensures RunQueries(st, remote, qs).state.memo.Keys == st.memo.Keys
    decreases |qs|
  {
    if qs != [] {
      var p := Process(st, remote, qs[0]);
      if !p.outcome.Failed? {
        RunQueriesMemo(p.state, remote, qs[1..]);
      }
    }
  }

  /** When the depth change succeeds at a non-negative depth for an initialised block and the
      instruction's operands are readable, the step goes on, every account and slot the
      instruction needs is visible afterwards, and nothing visible before is lost. */
  lemma TraceStepLoads(p: Progress, st: CacheState, remote: Remote, block: int, s: StepState, dv: Derivation)
    requires WellFormed(st.scopes) && block in st.memo && s.gasLeft < SafeNumberBound
    requires MoveDepth(st.scopes, Reconcile(p.depth, s.depth, s.stack)).Ok?
    requires MoveDepth(st.scopes, Reconcile(p.depth, s.depth, s.stack)).value.depth >= 0
    requires StepQueries(s, block, dv).Ok?
    ensures var r := TraceStep(p, st, remote, block, s, dv);
      var sc, qs := MoveDepth(st.scopes, Reconcile(p.depth, s.depth, s.stack)).value, StepQueries(s, block, dv).value;
      && r.next == Continue
      && (forall i :: 0 <= i < |qs| ==> KeyOf(qs[i]).Some? && Visible(r.cache.scopes, KeyOf(qs[i]).value))
      && (forall k :: Visible(sc, k) ==> Visible(r.cache.scopes, k))
  {
    var sc := MoveDepth(st.scopes, Reconcile(p.depth, s.depth, s.stack)).value;
    var qs := StepQueries(s, block, dv).value;
    var st1 := st.(scopes := sc);
    StepQueriesShape(s, block, dv);
    RunQueriesSucceed(st1, remote, qs);
    ProcessAllVisible(st1, remote, qs);
  }

  // ---------------------------------------------------------------- the tracer

  /** What the engine's run of the block produced, when it did not fail. */
  datatype EngineRun = EngineRun(blooms: seq<Bloom>, receiptRoot: seq<Byte>)

  class BlockTracer {
    const cache: Cache
    const chain: Chain
    const dv: Derivation
    const receipts: seq<Receipt>
    var prevNumber: int
    var txTracker: nat
    var depth: int
    var gasUsedTX: nat
    var gasUsedCurrent: nat
    var txGasLimit: nat
    var diagnostics: seq<Diagnostic>

    function Snapshot(): Progress
      reads this
    {
      Progress(txTracker, depth, gasUsedTX, gasUsedCurrent, txGasLimit, diagnostics)
    }

    ghost predicate Valid()
      reads this, cache
    {
      cache.Valid()
    }

    constructor(cache: Cache, chain: Chain, dv: Derivation, receipts: seq<Receipt>)
      requires cache.Valid()
      ensures Valid()
      ensures this.cache == cache && this.chain == chain && this.dv == dv && this.receipts == receipts
      ensures prevNumber == 0 && Snapshot() == Progress(0, 0, 0, 0, 0, [])
    {
      this.cache := cache;
      this.chain := chain;
      this.dv := dv;
      this.receipts := receipts;
      prevNumber := 0;
      txTracker := 0;
      depth := 0;
      gasUsedTX := 0;
      gasUsedCurrent := 0;
      txGasLimit := 0;
      diagnostics := [];
    }

    /** The preparation: the cache moves to the previous block, the last 256 blocks and the
        uncles are stored, and every account the block is known to touch is fetched at the
        previous block; the block stalls if the cache cannot move to that block. */
    method Prepare(b: TracedBlock, node: Node) returns (c: Continuation, ops: seq<Query>)
      requires Valid()
      modifies this, cache, chain
      ensures Valid()
      ensures c == (if b.number - 1 < old(cache.blockNumber) then Stall(CacheFailure(BlockNumberDecrease)) else Continue)
      ensures c.Stall? ==> cache.State() == old(cache.State()) && chain.blocks == old(chain.blocks)
      ensures c.Continue? ==>
        && chain.blocks == History(old(chain.blocks), node, b.number, b.uncleCount)
        && (forall i :: 0 <= i < |ops| ==> ops[i] == AccountQuery(ops[i].address, b.number - 1))
        && multiset(Addresses(ops)) ==
             multiset(PrefetchAccounts(b.txs, UncleMiners(node, b.number, b.uncleCount), b.miner, dv)) + multiset(Recipients(b.txs))
        && cache.State() == ProcessAll(old(cache.State()).(blockNumber := b.number - 1, memo := old(cache.memo)[b.number - 1 := EmptyTables]), cache.remote, ops)
        && prevNumber == b.number - 1 && Snapshot() == Progress(0, 0, 0, 0, 0, old(diagnostics))
      ensures c.Continue? && old(cache.depth) >= 0 ==>
        forall a :: a in PrefetchAccounts(b.txs, UncleMiners(node, b.number, b.uncleCount), b.miner, dv) ==>
          Visible(cache.Scopes(), AccountKey(ToLower(a)))
    {
      var r := cache.SetBlockNumber(b.number - 1);
      if r.Fail? {
        return Stall(CacheFailure(r.error)), [];
      }
      ghost var ready := cache.State();
      assert ready == old(cache.State()).(blockNumber := b.number - 1, memo := old(cache.memo)[b.number - 1 := EmptyTables]);
      ops := Load(b, node);
      c := Continue;
    }

    /** The preparation once the cache is at the previous block. */
    method Load(b: TracedBlock, node: Node) returns (ops: seq<Query>)
      requires Valid() && b.number - 1 in cache.memo
      modifies this, cache, chain
      ensures Valid()
      ensures chain.blocks == History(old(chain.blocks), node, b.number, b.uncleCount)
      ensures forall i :: 0 <= i < |ops| ==> ops[i] == AccountQuery(ops[i].address, b.number - 1)
      ensures multiset(Addresses(ops)) ==
        multiset(PrefetchAccounts(b.txs, UncleMiners(node, b.number, b.uncleCount), b.miner, dv)) + multiset(Recipients(b.txs))
      ensures cache.State() == ProcessAll(old(cache.State()), cache.remote, ops)
      ensures prevNumber == b.number - 1 && Snapshot() == Progress(0, 0, 0, 0, 0, old(diagnostics))
      ensures old(cache.depth) >= 0 ==>
        forall a :: a in PrefetchAccounts(b.txs, UncleMiners(node, b.number, b.uncleCount), b.miner, dv) ==>
          Visible(cache.Scopes(), AccountKey(ToLower(a)))
    {
      ghost var ready := cache.State();
      var n := b.number;
      prevNumber := n as int - 1;
      txTracker, depth := 0, 0;
      gasUsedCurrent, gasUsedTX, txGasLimit := 0, 0, 0;
      ghost var progress := Snapshot();
      var miners := StoreHistory(node, n, b.uncleCount);
      assert cache.State() == ready;
      ops := FetchAccounts(b, miners);
      assert Snapshot() == progress;
    }

    /** Fetches, at the previous block, every account the block is known to touch. */
    method FetchAccounts(b: TracedBlock, miners: seq<string>) returns (ops: seq<Query>)
      requires Valid() && prevNumber in cache.memo
      modifies cache
      ensures Valid()
      ensures forall i :: 0 <= i < |ops| ==> ops[i] == AccountQuery(ops[i].address, prevNumber)
      ensures multiset(Addresses(ops)) == multiset(PrefetchAccounts(b.txs, miners, b.miner, dv)) + multiset(Recipients(b.txs))
      ensures cache.State() == ProcessAll(old(cache.State()), cache.remote, ops)
      ensures old(cache.depth) >= 0 ==>
        forall a :: a in PrefetchAccounts(b.txs, miners, b.miner, dv) ==> Visible(cache.Scopes(), AccountKey(ToLower(a)))
    {
      ops := PrefetchQueries(b.txs, miners, b.miner, prevNumber, dv);
      ghost var st := cache.State();
      cache.ProcessQueries(ops);
      if st.scopes.depth >= 0 {
        PrefetchedVisible(st, cache.remote, ops, prevNumber, PrefetchAccounts(b.txs, miners, b.miner, dv));
      }
    }

    /** Stores the last 256 blocks before `n`, then the uncles of `n` as uncles. */
    method StoreHistory(node: Node, n: nat, count: nat) returns (miners: seq<string>)
      modifies chain
      ensures chain.blocks == History(old(chain.blocks), node, n, count)
      ensures miners == UncleMiners(node, n, count)
    {
      StoreAncestors(node, n);
      miners := StoreUncles(node, n, count);
    }

    /** Stores the blocks at the (at most) 256 heights before `n`, lowest first. */
    method StoreAncestors(node: Node, n: nat)
      modifies chain
      ensures chain.blocks == PutAll(old(chain.blocks), Ancestors(node, n), false)
    {
      var start := HistoryStart(n);
      StoreBlocks(node, start, n - start);
    }

    /** Stores the node's blocks at `count` heights from `start` on, lowest first. */
    method StoreBlocks(node: Node, start: nat, count: nat)
      modifies chain
      ensures chain.blocks == PutAll(old(chain.blocks), Blocks(node, start, count), false)
    {
      ghost var bs := Blocks(node, start, count);
      ghost var initial := chain.blocks;
      for k := 0 to count
        invariant chain.blocks == PutAll(initial, bs[..k], false)
      {
        var block := node.blockAt(start + k);
        assert block == bs[k];
        ghost var before := chain.blocks;
        chain.PutBlock(block, false);
        PutAllNext(initial, bs, k, false, before, chain.blocks);
      }
      assert bs[..count] == bs;
    }

    /** Stores the uncles of block `n` as uncles, and collects their miners. */
    method StoreUncles(node: Node, n: nat, count: nat) returns (miners: seq<string>)
      modifies chain
      ensures chain.blocks == PutAll(old(chain.blocks), Uncles(node, n, count), true)
      ensures miners == UncleMiners(node, n, count)
    {
      ghost var us := Uncles(node, n, count);
      ghost var initial := chain.blocks;
      miners := [];
      for u := 0 to count
        invariant chain.blocks == PutAll(initial, us[..u], true)
        invariant miners == UncleMiners(node, n, u)
      {
        var uncle := node.uncleAt(n, u);
        assert uncle == us[u];
        ghost var before := chain.blocks;
        chain.PutBlock(uncle, true);
        PutAllNext(initial, us, u, true, before, chain.blocks);
        UncleMinersNext(node, n, u);
        miners := miners + [uncle.miner];
      }
      assert us[..count] == us;
    }

    /** The handler before each transaction. */
    method BeforeTx(gasLimit: nat) returns (c: Continuation)
      requires Valid()
      modifies this, cache
      ensures Valid() && prevNumber == old(prevNumber)
      ensures Handled(Snapshot(), cache.State(), c) == EnterTx(old(Snapshot()), old(cache.State()), gasLimit)
    {
      depth := depth + 1;
      var _ := cache.ChangeDepth(1, false);
      gasUsedCurrent := gasUsedTX;
      if gasLimit >= SafeNumberBound {
        return Stall(UnsafeNumber);
      }
      txGasLimit := gasLimit;
      c := Continue;
    }

    /** The handler after each transaction. */
    method AfterTx(run: TxRun) returns (c: Continuation)
      requires Valid()
      modifies this, cache
      ensures Valid() && prevNumber == old(prevNumber)
      ensures Handled(Snapshot(), cache.State(), c) == LeaveTx(old(Snapshot()), old(cache.State()), receipts, run)
    {
      if txTracker >= |receipts| {
        return Abort(MissingReceipt);
      }
      var t := txTracker;
      diagnostics := diagnostics + StatusReport(t, receipts[t], run);
      var r := cache.ChangeDepth(-1, run.failed);
      if r.Fail? {
        return Abort(CacheFailure(r.error));
      }
      diagnostics := diagnostics + GasReport(t, receipts[t], run);
      depth := depth - 1;
      txTracker := txTracker + 1;
      if run.gasUsed >= SafeNumberBound {
        return Abort(UnsafeNumber);
      }
      gasUsedTX := gasUsedTX + run.gasUsed;
      c := Continue;
    }

    /** The handler at each instruction. */
    method Step(s: StepState) returns (c: Continuation)
      requires Valid()
      modifies this, cache
      ensures Valid() && prevNumber == old(prevNumber)
      ensures Handled(Snapshot(), cache.State(), c) == TraceStep(old(Snapshot()), old(cache.State()), cache.remote, prevNumber, s, dv)
    {
      if s.gasLeft >= SafeNumberBound {
        return Stall(UnsafeNumber);
      }
      ghost var st := cache.State();
      var change := Reconcile(depth, s.depth, s.stack);
      var actualDepth := s.depth + 1;
      if actualDepth != depth {
        var diff := actualDepth - depth;
        depth := actualDepth;
        var r: Outcome<CacheError>;
        if diff < 0 {
          if s.stack == [] {
            return Stall(MissingOperand);
          }
          var revert := ToHex(s.stack[|s.stack| - 1]) == "0";
          r := cache.ChangeDepth(diff, revert);
        } else {
          r := cache.ChangeDepth(diff, false);
        }
        if r.Fail? {
          return Stall(CacheFailure(r.error));
        }
      }
      assert MoveDepth(st.scopes, change) == Ok(cache.Scopes());
      c := VmStep(s);
    }

    /** The instruction's queries, awaited one after another. */
    method VmStep(s: StepState) returns (c: Continuation)
      requires Valid()
      modifies cache
      ensures Valid()
      ensures var qs := StepQueries(s, prevNumber, dv);
        && (qs.Err? ==> cache.State() == old(cache.State()) && c == Stall(qs.error))
        && (qs.Ok? ==> var ran := RunQueries(old(cache.State()), cache.remote, qs.value);
              cache.State() == ran.state && c == (if ran.failure.Some? then Stall(CacheFailure(ran.failure.value)) else Continue))
    {
      var queries := StepQueries(s, prevNumber, dv);
      if queries.Err? {
        return Stall(queries.error);
      }
      var qs := queries.value;
      ghost var st := cache.State();
      var i := 0;
      while i < |qs|
        invariant 0 <= i <= |qs| && Valid()
        invariant RunQueries(cache.State(), cache.remote, qs[i..]) == RunQueries(st, cache.remote, qs)
      {
        assert qs[i..][1..] == qs[i + 1..];
        var outcome := cache.ProcessQuery(qs[i]);
        if outcome.Failed? {
          return Stall(CacheFailure(outcome.error));
        }
        i := i + 1;
      }
      c := Continue;
    }

    /** The closing comparison: the header is checked against the run (with the gas total the
        handlers added up), and the verdict is given on the blooms alone. */
    method Finish(h: Header, run: Option<EngineRun>) returns (report: seq<Mismatch>, v: Verdict)
      ensures var ran := if run.Some? then Some(RunResult(run.value.blooms, gasUsedTX, run.value.receiptRoot)) else None;
        && v == Conclude(h, ran)
        && (ran.Some? && VerifyBlock(h, ran.value).Ok? ==> report == VerifyBlock(h, ran.value).value)
    {
      report := [];
      if run.None? {
        return [], RunBlockError;
      }
      var traced := TxListGetBloom(run.value.blooms);
      if h.gasUsed >= SafeNumberBound {
        return [], Hung(UnsafeNumber);
      }
      if h.gasUsed != gasUsedTX {
        report := report + [GasUsedMismatch];
      }
      if HexEncode(h.bloom) != HexEncode(traced) {
        report := report + [LogBloomMismatch];
      }
      if HexEncode(run.value.receiptRoot) != HexEncode(h.receiptTrie) {
        report := report + [ReceiptTrieMismatch];
      }
      var final := TxListGetBloom(run.value.blooms);
      v := if HexEncode(h.bloom) != HexEncode(final) then BloomMismatchReported else BlockOk;
    }
  }
}
