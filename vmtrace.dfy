/**
 * What the tracer decides on its own while a block runs: which accounts and slots an
 * instruction needs before it executes, how the engine's call depth is followed, which
 * accounts are fetched before the first transaction, and how the block's result is
 * compared with the chain's header.
 */
module VmTrace {
  import opened Wrappers
  import opened Encoding
  import opened StateCache

  datatype TraceError =
    | CacheFailure(error: CacheError)   // a query or a depth change threw
    | MissingOperand                    // a stack slot read past the bottom of the stack
    | UnsafeNumber                      // a big number too large for `toNumber`
    | SaltTooLong                       // a salt wider than 32 bytes
    | MissingReceipt                    // a transaction with no receipt at its index

  // ---------------------------------------------------------------- stack words as addresses and slots

  /** "0x" and the word's digits, left-padded to 40; a word of more than 160 bits keeps
      all its digits. */
  function BnToAddress(w: nat): (r: string)
    ensures HasHexPrefix(r)
  {
    var r := "0x" + PadStart(ToHex(w), 40, '0');
    assert r[..2] == "0x";
    r
  }

  /** The address denotes the word itself; it has the 40 digits of an address exactly when
      the word is below 2^160, and then it becomes the 20 bytes of that number. */
  lemma BnToAddressValue(w: nat)
    ensures IsHexString(Drop2(BnToAddress(w))) && HexValue(Drop2(BnToAddress(w))) == w
    ensures |BnToAddress(w)| == 42 <==> w < AddressBound
    ensures w < AddressBound ==>
      |AddressToBuffer(BnToAddress(w))| == 20 && BytesValue(AddressToBuffer(BnToAddress(w))) == w
  {
    var h := ToHex(w);
    BoundsArePowers();
    ToHexValue(w);
    ToHexLength(w, 40);
    PadStartHex(h, 40);
    assert Drop2(BnToAddress(w)) == PadStart(h, 40, '0');
    if w < AddressBound {
      AddressToBufferValue(BnToAddress(w));
    }
  }

  /** "0x" and the word's digits, left-padded to 64. */
  function BnToStorageSlot(w: nat): (r: string)
    ensures HasHexPrefix(r)
  {
    var r := "0x" + PadStart(ToHex(w), 64, '0');
    assert r[..2] == "0x";
    r
  }

  /** A 256-bit word (below 2^256) becomes a slot of exactly 64 digits, whose trie key is
      the 32 bytes of the word. */
  lemma BnToStorageSlotValue(w: nat)
    requires w < WordBound
    ensures |BnToStorageSlot(w)| == 66 && HexValue(Drop2(BnToStorageSlot(w))) == w
    ensures |SlotBytes(BnToStorageSlot(w))| == 32 && BytesValue(SlotBytes(BnToStorageSlot(w))) == w
  {
    var h := ToHex(w);
    BoundsArePowers();
    ToHexValue(w);
    ToHexLength(w, 64);
    PadStartHex(h, 64);
    var p := PadStart(h, 64, '0');
    assert Drop2(BnToStorageSlot(w)) == p;
    assert PadStart(p, 64, '0') == p;
    HexDecodeLength(p);
    HexDecodeValue(p);
  }

  // ---------------------------------------------------------------- the instruction step

  /** The instructions the tracer looks at before they execute; every other instruction
      is `Untraced`. */
  datatype Opcode =
    | Balance | ExtCodeSize | ExtCodeCopy | ExtCodeHash | SLoad | SStore | Create
    | Call | CallCode | DelegateCall | Create2 | StaticCall | SelfDestruct | BlockHash
    | Untraced(name: string)
  {
    predicate IsCodeRead() { this == ExtCodeSize || this == ExtCodeCopy || this == ExtCodeHash }
    predicate IsCall() { this == Call || this == CallCode || this == DelegateCall || this == StaticCall }
    predicate IsStorage() { this == SLoad || this == SStore }
    predicate IsAccountRead() { this == Balance || this == SelfDestruct || this == Create || this == Create2 }
  }

  /** The engine's view of one step: the instruction, the stack (top last), the executing
      account's 20-byte address and nonce bytes, the memory, the call depth and the gas left. */
  datatype StepState = StepState(
    opcode: Opcode, stack: seq<nat>, address: seq<Byte>, nonce: seq<Byte>,
    memory: seq<Byte>, depth: int, gasLeft: nat)

  /** Address derivations and checksumming, which the tracer takes from a library. */
  datatype Derivation = Derivation(
    contractAddress: (string, nat) -> string,
    create2Address: (string, seq<Byte>, seq<Byte>) -> string,
    checksum: string -> string)

  /** The stack slot `k` places below the top, if the stack is that deep. */
  function Operand(stack: seq<nat>, k: nat): (r: Option<nat>)
    ensures r.Some? <==> k < |stack|
    ensures r.Some? ==> r.value == stack[|stack| - 1 - k]
  {
    if k < |stack| then Some(stack[|stack| - 1 - k]) else None
  }

  /** `new BN(x).toNumber()`: an absent slot reads as 0, a large one throws. */
  function SmallNumber(x: Option<nat>): (r: Result<nat, TraceError>)
    ensures r.Ok? <==> x.None? || x.value < SafeNumberBound
    ensures r.Ok? ==> r.value == (if x.None? then 0 else x.value)
    ensures r.Err? ==> r.error == UnsafeNumber
  {
    if x.None? then Ok(0) else if x.value < SafeNumberBound then Ok(x.value) else Err(UnsafeNumber)
  }

  /** A buffer's `slice(start, start + len)`, clamped to the buffer. */
  function Slice(m: seq<Byte>, start: nat, len: nat): (r: seq<Byte>)
    ensures |r| <= len
    ensures start + len <= |m| ==> r == m[start..start + len]
  {
    if start >= |m| then [] else if start + len <= |m| then m[start..start + len] else m[start..]
  }

  /** The executing account's address, "0x" and 40 digits. */
  function CurrentAddress(s: StepState): string
  {
    "0x" + PadStart(HexEncode(s.address), 40, '0')
  }

  function AccountQuery(address: string, block: int): Query
  {
    Query(Account, address, None, block)
  }

  function CodeQuery(address: string, block: int): Query
  {
    Query(Code, address, None, block)
  }

  /** CREATE2's query: offset and length from the second and third slots, the salt from
      the fourth as 32 big-endian bytes, the init code cut from memory. */
  function Create2Query(s: StepState, block: int, dv: Derivation): Result<Query, TraceError>
  {
    match SmallNumber(Operand(s.stack, 1))
    case Err(e) => Err(e)
    case Ok(offset) =>
      match SmallNumber(Operand(s.stack, 2))
      case Err(e) => Err(e)
      case Ok(len) =>
        var salt := Operand(s.stack, 3);
        if salt.None? then Err(MissingOperand)
        else if salt.value >= WordBound then Err(SaltTooLong)
        else Ok(AccountQuery(dv.create2Address(CurrentAddress(s), ToBytesBE(salt.value, 32), Slice(s.memory, offset, len)), block))
  }

  /** The queries an instruction makes before it runs, in order, or the error that stops
      the step before any query is made. */
  function StepQueries(s: StepState, block: int, dv: Derivation): Result<seq<Query>, TraceError>
  {
    var top, second := Operand(s.stack, 0), Operand(s.stack, 1);
    match s.opcode
    case Balance | SelfDestruct =>
      if top.None? then Err(MissingOperand) else Ok([AccountQuery(BnToAddress(top.value), block)])
    case ExtCodeSize | ExtCodeCopy | ExtCodeHash =>
      if top.None? then Err(MissingOperand) else Ok([CodeQuery(BnToAddress(top.value), block)])
    case SLoad | SStore =>
      if top.None? then Err(MissingOperand)
      else Ok([Query(Storage, dv.checksum("0x" + HexEncode(s.address)), Some(BnToStorageSlot(top.value)), block)])
    case Create =>
      Ok([AccountQuery(dv.contractAddress(CurrentAddress(s), BytesValue(s.nonce)), block)])
    case Call | CallCode | DelegateCall | StaticCall =>
      if second.None? then Err(MissingOperand)
      else
        var a := BnToAddress(second.value);
        Ok([AccountQuery(a, block), CodeQuery(a, block)])
    case Create2 =>
      var q := Create2Query(s, block, dv);
      if q.Err? then Err(q.error) else Ok([q.value])
    case BlockHash | Untraced(_) => Ok([])
  }

  /** Which instructions query what: nothing for BLOCKHASH and for instructions the tracer
      does not look at; one account query for BALANCE, SELFDESTRUCT, CREATE and CREATE2;
      one code query for the EXTCODE family; one storage query for SLOAD and SSTORE; an
      account and a code query on the same address for the CALL family. Every query is
      about the given block. */
  lemma StepQueriesShape(s: StepState, block: int, dv: Derivation)
    ensures s.opcode.BlockHash? || s.opcode.Untraced? ==> StepQueries(s, block, dv) == Ok([])
    ensures var r := StepQueries(s, block, dv);
      r.Ok? ==> forall i :: 0 <= i < |r.value| ==> r.value[i].block == block && KeyOf(r.value[i]).Some?
    ensures var r := StepQueries(s, block, dv);
      r.Ok? && s.opcode.IsCall() ==>
        |r.value| == 2 && r.value[0].op == Account && r.value[1].op == Code && r.value[0].address == r.value[1].address
    ensures var r := StepQueries(s, block, dv);
      r.Ok? && s.opcode.IsStorage() ==> |r.value| == 1 && r.value[0].op == Storage
    ensures var r := StepQueries(s, block, dv);
      r.Ok? && s.opcode.IsCodeRead() ==> |r.value| == 1 && r.value[0].op == Code
    ensures var r := StepQueries(s, block, dv);
      r.Ok? && s.opcode.IsAccountRead() ==> |r.value| == 1 && r.value[0].op == Account
  {
    var r := StepQueries(s, block, dv);
    var top, second := Operand(s.stack, 0), Operand(s.stack, 1);
    match s.opcode {
      case Balance | SelfDestruct =>
        if top.Some? {
          assert r == Ok([AccountQuery(BnToAddress(top.value), block)]);
        }
      case ExtCodeSize | ExtCodeCopy | ExtCodeHash =>
        if top.Some? {
          assert r == Ok([CodeQuery(BnToAddress(top.value), block)]);
        }
      case SLoad | SStore =>
        if top.Some? {
          var q := Query(Storage, dv.checksum("0x" + HexEncode(s.address)), Some(BnToStorageSlot(top.value)), block);
          assert r == Ok([q]) && KeyOf(q).Some?;
        }
      case Create =>
        assert r == Ok([AccountQuery(dv.contractAddress(CurrentAddress(s), BytesValue(s.nonce)), block)]);
      case Call | CallCode | DelegateCall | StaticCall =>
        if second.Some? {
          var a := BnToAddress(second.value);
          assert r == Ok([AccountQuery(a, block), CodeQuery(a, block)]);
        }
      case Create2 =>
        var q := Create2Query(s, block, dv);
        if q.Ok? {
          assert r == Ok([q.value]) && q.value.op == Account && q.value.block == block;
        }
      case BlockHash =>
      case Untraced(_) =>
    }
  }

  /** BALANCE, SELFDESTRUCT and the EXTCODE family query the address made from the word on
      top of the stack, the CALL family the one made from the second word: the text denotes
      that word, and it is an address of 40 digits, whose trie key is the word's 20 bytes,
      exactly when the word is below 2^160. */
  lemma StepQueriesAddress(s: StepState, block: int, dv: Derivation)
    requires s.opcode.IsCall() || s.opcode.IsCodeRead() || s.opcode == Balance || s.opcode == SelfDestruct
    requires StepQueries(s, block, dv).Ok?
    ensures |s.stack| >= (if s.opcode.IsCall() then 2 else 1) && |StepQueries(s, block, dv).value| >= 1
    ensures var w := if s.opcode.IsCall() then s.stack[|s.stack| - 2] else s.stack[|s.stack| - 1];
      var a := StepQueries(s, block, dv).value[0].address;
      && HasHexPrefix(a) && IsHexString(Drop2(a)) && HexValue(Drop2(a)) == w
      && (|a| == 42 <==> w < AddressBound)
      && (w < AddressBound ==> |AddressToBuffer(a)| == 20 && BytesValue(AddressToBuffer(a)) == w)
  {
    var w := if s.opcode.IsCall() then s.stack[|s.stack| - 2] else s.stack[|s.stack| - 1];
    if s.opcode.IsCall() {
      assert StepQueries(s, block, dv).value[0] == AccountQuery(BnToAddress(w), block);
    } else if s.opcode.IsCodeRead() {
      assert StepQueries(s, block, dv).value[0] == CodeQuery(BnToAddress(w), block);
    } else {
      assert StepQueries(s, block, dv).value[0] == AccountQuery(BnToAddress(w), block);
    }
    BnToAddressValue(w);
  }

  /** The step's errors: a stack too shallow for the operand the instruction reads, and for
      CREATE2 a memory offset or length too large to be a number, checked in that order;
      with operands that fit, CREATE2 always makes its query. */
  lemma StepQueriesErrors(s: StepState, block: int, dv: Derivation)
    ensures StepQueries(s, block, dv).Err? ==> !(s.opcode == BlockHash || s.opcode == Create || s.opcode.Untraced?)
    ensures s.opcode.IsCall() && |s.stack| < 2 ==> StepQueries(s, block, dv) == Err(MissingOperand)
    ensures
      && (s.opcode.IsCodeRead() || s.opcode.IsStorage() || s.opcode == Balance || s.opcode == SelfDestruct)
      && s.stack == []
      ==> StepQueries(s, block, dv) == Err(MissingOperand)
    ensures s.opcode == Create2 && |s.stack| >= 2 && s.stack[|s.stack| - 2] >= SafeNumberBound ==>
      StepQueries(s, block, dv) == Err(UnsafeNumber)
    ensures
      && s.opcode == Create2 && |s.stack| >= 4 && s.stack[|s.stack| - 2] < SafeNumberBound
      && s.stack[|s.stack| - 3] < SafeNumberBound && s.stack[|s.stack| - 4] < WordBound
      ==> StepQueries(s, block, dv).Ok?
  {
    if s.opcode == Create2 {
      if |s.stack| >= 2 && s.stack[|s.stack| - 2] >= SafeNumberBound {
        assert SmallNumber(Operand(s.stack, 1)) == Err(UnsafeNumber);
      }
      if |s.stack| >= 4 && s.stack[|s.stack| - 2] < SafeNumberBound
        && s.stack[|s.stack| - 3] < SafeNumberBound && s.stack[|s.stack| - 4] < WordBound
      {
        Create2QueryOk(s, block, dv);
      }
    }
  }

  /** A storage query names the slot of the word on top of the stack and, when checksumming
      the executing account's address only changes the case of its letters, is recorded
      under that address in lower case. */
  lemma StorageQueryKey(s: StepState, block: int, dv: Derivation)
    requires s.opcode.IsStorage() && s.stack != [] && s.stack[|s.stack| - 1] < WordBound
    requires ToLower(dv.checksum("0x" + HexEncode(s.address))) == ToLower("0x" + HexEncode(s.address))
    ensures StepQueries(s, block, dv).Ok?
    ensures var q := StepQueries(s, block, dv).value[0];
      && KeyOf(q) == Some(SlotKey(ToLower("0x" + HexEncode(s.address)), BnToStorageSlot(s.stack[|s.stack| - 1])))
      && BytesValue(SlotBytes(q.slot.value)) == s.stack[|s.stack| - 1]
  {
    var w := s.stack[|s.stack| - 1];
    var a := "0x" + HexEncode(s.address);
    var q := Query(Storage, dv.checksum(a), Some(BnToStorageSlot(w)), block);
    assert Operand(s.stack, 0) == Some(w);
    assert StepQueries(s, block, dv) == Ok([q]);
    assert KeyOf(q) == Some(SlotKey(ToLower(a), BnToStorageSlot(w)));
    BnToStorageSlotValue(w);
  }

  lemma Create2QueryOk(s: StepState, block: int, dv: Derivation)
    requires |s.stack| >= 4
    requires s.stack[|s.stack| - 2] < SafeNumberBound && s.stack[|s.stack| - 3] < SafeNumberBound
    requires s.stack[|s.stack| - 4] < WordBound
    ensures var offset, len, salt := s.stack[|s.stack| - 2], s.stack[|s.stack| - 3], s.stack[|s.stack| - 4];
      Create2Query(s, block, dv) == Ok(AccountQuery(dv.create2Address(CurrentAddress(s), ToBytesBE(salt, 32), Slice(s.memory, offset, len)), block))
  {
    assert Operand(s.stack, 1) == Some(s.stack[|s.stack| - 2]);
    assert Operand(s.stack, 2) == Some(s.stack[|s.stack| - 3]);
    assert Operand(s.stack, 3) == Some(s.stack[|s.stack| - 4]);
  }

  /** The CREATE2 salt is the 32 big-endian bytes of the word, and the code is the memory the
      instruction names, whenever it lies inside memory. */
  lemma Create2Inputs(s: StepState, block: int, dv: Derivation)
    requires s.opcode == Create2 && |s.stack| >= 4
    requires s.stack[|s.stack| - 2] + s.stack[|s.stack| - 3] <= |s.memory|
    requires s.stack[|s.stack| - 2] < SafeNumberBound && s.stack[|s.stack| - 3] < SafeNumberBound
    requires s.stack[|s.stack| - 4] < WordBound
    ensures var offset, len, salt := s.stack[|s.stack| - 2], s.stack[|s.stack| - 3], s.stack[|s.stack| - 4];
      && StepQueries(s, block, dv) == Ok([AccountQuery(dv.create2Address(CurrentAddress(s), ToBytesBE(salt, 32), s.memory[offset..offset + len]), block)])
      && BytesValue(ToBytesBE(salt, 32)) == salt
  {
    var offset, len, salt := s.stack[|s.stack| - 2], s.stack[|s.stack| - 3], s.stack[|s.stack| - 4];
    var code := s.memory[offset..offset + len];
    assert Slice(s.memory, offset, len) == code;
    Create2QueryOk(s, block, dv);
    var q := AccountQuery(dv.create2Address(CurrentAddress(s), ToBytesBE(salt, 32), code), block);
    assert Create2Query(s, block, dv) == Ok(q);
    assert StepQueries(s, block, dv) == Ok([q]);
    assert BytesValue(ToBytesBE(salt, 32)) == salt by {
      BoundsArePowers();
      ToBytesBEValue(salt, 32);
    }
  }

  /** The second query of a CALL-family step is always answered from the frames once the
      first has been processed at a non-negative depth for an initialised block. */
  lemma CallSecondQueryHits(st: CacheState, remote: Remote, s: StepState, block: int, dv: Derivation)
    requires WellFormed(st.scopes) && st.scopes.depth >= 0 && block in st.memo
    requires s.opcode.IsCall() && StepQueries(s, block, dv).Ok?
    ensures var qs := StepQueries(s, block, dv).value;
      Process(Process(st, remote, qs[0]).state, remote, qs[1]).outcome == Hit
  {
    var qs := StepQueries(s, block, dv).value;
    var a := BnToAddress(Operand(s.stack, 1).value);
    assert qs == [AccountQuery(a, block), CodeQuery(a, block)];
    ProcessVisible(st, remote, qs[0]);
    var next := Process(st, remote, qs[0]).state;
    assert KeyOf(qs[1]) == KeyOf(qs[0]);
    ProcessHitIffVisible(next, remote, qs[1]);
  }

  // ---------------------------------------------------------------- following the call depth

  /** What the step handler does with the cache depth: nothing, one change deeper, or one
      change back that reverts exactly when the call's result on top of the stack is 0; an
      empty stack on the way back cannot be read. */
  datatype DepthChange = Same | Deeper(diff: int) | Shallower(diff: int, revert: bool) | Unreadable

  function Reconcile(tracked: int, engineDepth: int, stack: seq<nat>): DepthChange
  {
    var diff := engineDepth + 1 - tracked;
    if diff == 0 then Same
    else if diff > 0 then Deeper(diff)
    else if stack == [] then Unreadable
    else Shallower(diff, ToHex(stack[|stack| - 1]) == "0")
  }

  /** The handler's depth changes go the way the engine moved, by its full distance, and a
      return reverts exactly when the call's result is zero. */
  lemma ReconcileMeaning(tracked: int, engineDepth: int, stack: seq<nat>)
    ensures Reconcile(tracked, engineDepth, stack).Same? <==> engineDepth + 1 == tracked
    ensures Reconcile(tracked, engineDepth, stack).Deeper? ==>
      Reconcile(tracked, engineDepth, stack).diff == engineDepth + 1 - tracked > 0
    ensures Reconcile(tracked, engineDepth, stack).Shallower? ==>
      && Reconcile(tracked, engineDepth, stack).diff == engineDepth + 1 - tracked < 0
      && (Reconcile(tracked, engineDepth, stack).revert <==> stack[|stack| - 1] == 0)
    ensures Reconcile(tracked, engineDepth, stack).Unreadable? <==> engineDepth + 1 < tracked && stack == []
  {
    if stack != [] {
      ToHexZero(stack[|stack| - 1]);
    }
  }

  /** A jump of more than one level, which happens when a call returns straight into the
      end of its caller, is refused by the cache. */
  lemma ReconcileJumpRefused(s: ScopeStack, tracked: int, engineDepth: int, stack: seq<nat>)
    requires engineDepth + 1 - tracked != 1 && engineDepth + 1 - tracked != -1
    ensures var c := Reconcile(tracked, engineDepth, stack);
      c.Deeper? || c.Shallower? ==> StepDepth(s, c.diff, c.Shallower? && c.revert) == Err(DepthStep)
  {
  }

  // ---------------------------------------------------------------- prefetching

  /** A transaction of the traced block as far as prefetching reads it. */
  datatype BlockTx = BlockTx(from: string, to: Option<string>, nonce: nat)

  function Senders(txs: seq<BlockTx>): set<string>
  {
    set i | 0 <= i < |txs| :: txs[i].from
  }

  /** Recipients that are non-empty strings; an empty one is skipped altogether. */
  function Recipients(txs: seq<BlockTx>): set<string>
  {
    set i | 0 <= i < |txs| && txs[i].to.Some? && txs[i].to.value != "" :: txs[i].to.value
  }

  /** The addresses that transactions without a recipient create. */
  function Creations(txs: seq<BlockTx>, dv: Derivation): set<string>
  {
    set i | 0 <= i < |txs| && txs[i].to.None? :: dv.contractAddress(txs[i].from, txs[i].nonce)
  }

  function Elements(xs: seq<string>): set<string>
  {
    set i | 0 <= i < |xs| :: xs[i]
  }

  /** Everyone whose account is fetched before the first transaction. */
  function PrefetchAccounts(txs: seq<BlockTx>, uncleMiners: seq<string>, miner: string, dv: Derivation): set<string>
  {
    Senders(txs) + Elements(uncleMiners) + Recipients(txs) + Creations(txs, dv) + {miner}
  }

  function Addresses(qs: seq<Query>): seq<string>
  {
    seq(|qs|, i requires 0 <= i < |qs| => qs[i].address)
  }

  /** Appends one account query per address. */
  method AppendAccountQueries(ops: seq<Query>, addresses: set<string>, block: int) returns (r: seq<Query>)
    ensures |r| == |ops| + |addresses| && r[..|ops|] == ops
    ensures forall i :: |ops| <= i < |r| ==> r[i] == AccountQuery(r[i].address, block)
    ensures multiset(Addresses(r)) == multiset(Addresses(ops)) + multiset(addresses)
  {
    r := ops;
    var rest := addresses;
    while rest != {}
      invariant |r| + |rest| == |ops| + |addresses| && |ops| <= |r| && r[..|ops|] == ops
      invariant forall i :: |ops| <= i < |r| ==> r[i] == AccountQuery(r[i].address, block)
      invariant rest <= addresses
      invariant multiset(Addresses(r)) + multiset(rest) == multiset(Addresses(ops)) + multiset(addresses)
      decreases |rest|
    {
      var a :| a in rest;
      assert Addresses(r + [AccountQuery(a, block)]) == Addresses(r) + [a];
      assert multiset(rest) == multiset(rest - {a}) + multiset{a};
      r := r + [AccountQuery(a, block)];
      rest := rest - {a};
    }
  }

  /** The miners of the uncles, collected as each uncle arrives. */
  method CollectMiners(uncleMiners: seq<string>) returns (miners: set<string>)
    ensures miners == Elements(uncleMiners)
  {
    miners := {};
    for i := 0 to |uncleMiners|
      invariant miners == set j | 0 <= j < i :: uncleMiners[j]
    {
      miners := miners + {uncleMiners[i]};
    }
  }

  /** One pass over the transactions: each sender; each non-empty recipient; for each
      creation, the address it creates. */
  method CollectTxAddresses(txs: seq<BlockTx>, dv: Derivation)
    returns (senders: set<string>, targets: set<string>, creations: set<string>)
    ensures senders == Senders(txs) && targets == Recipients(txs) && creations == Creations(txs, dv)
  {
    senders, targets, creations := {}, {}, {};
    for i := 0 to |txs|
      invariant senders == set j | 0 <= j < i :: txs[j].from
      invariant targets == set j | 0 <= j < i && txs[j].to.Some? && txs[j].to.value != "" :: txs[j].to.value
      invariant creations == set j | 0 <= j < i && txs[j].to.None? :: dv.contractAddress(txs[j].from, txs[j].nonce)
    {
      var tx := txs[i];
      if tx.to.Some? && tx.to.value != "" {
        targets := targets + {tx.to.value};
      } else if tx.to.None? {
        creations := creations + {dv.contractAddress(tx.from, tx.nonce)};
      }
      senders := senders + {tx.from};
    }
  }

  /** The accounts whose balance is wanted (senders, uncle miners, recipients, created
      addresses and the miner) and those whose code is wanted (the recipients). */
  method PrefetchSets(txs: seq<BlockTx>, uncleMiners: seq<string>, miner: string, dv: Derivation)
    returns (checkBalance: set<string>, checkCode: set<string>)
    ensures checkBalance == PrefetchAccounts(txs, uncleMiners, miner, dv)
    ensures checkCode == Recipients(txs)
  {
    var miners := CollectMiners(uncleMiners);
    var senders, targets, creations := CollectTxAddresses(txs, dv);
    checkBalance := AddKeys({}, senders + miners);
    checkBalance := AddKeys(checkBalance, targets);
    checkBalance := AddKeys(checkBalance, creations);
    checkBalance := checkBalance + {miner};
    checkCode := AddKeys({}, targets);
  }

  /** Collects senders, uncle miners, recipients, created addresses and the miner, and
      makes one account query for each at the given block, plus a second one for each
      recipient (whose code is wanted too, and whose code query is an account query). */
  method PrefetchQueries(txs: seq<BlockTx>, uncleMiners: seq<string>, miner: string, block: int, dv: Derivation)
    returns (ops: seq<Query>)
    ensures forall i :: 0 <= i < |ops| ==> ops[i] == AccountQuery(ops[i].address, block)
    ensures multiset(Addresses(ops)) == multiset(PrefetchAccounts(txs, uncleMiners, miner, dv)) + multiset(Recipients(txs))
  {
    var checkBalance, checkCode := PrefetchSets(txs, uncleMiners, miner, dv);
    var first := AppendAccountQueries([], checkBalance, block);
    ops := AppendAccountQueries(first, checkCode, block);
    assert multiset(Addresses([])) == multiset{};
    forall i | 0 <= i < |first| ensures ops[i] == AccountQuery(ops[i].address, block) {
      assert ops[i] == ops[..|first|][i];
    }
  }

  /** Once a prefetch batch for an initialised block has been processed at a non-negative
      depth, every prefetched account is visible. */
  lemma PrefetchedVisible(st: CacheState, remote: Remote, ops: seq<Query>, block: int, accounts: set<string>)
    requires WellFormed(st.scopes) && st.scopes.depth >= 0 && block in st.memo
    requires forall i :: 0 <= i < |ops| ==> ops[i] == AccountQuery(ops[i].address, block)
    requires multiset(accounts) <= multiset(Addresses(ops))
    ensures forall a :: a in accounts ==> Visible(ProcessAll(st, remote, ops).scopes, AccountKey(ToLower(a)))
  {
    ProcessAllVisible(st, remote, ops);
    forall a | a in accounts
      ensures Visible(ProcessAll(st, remote, ops).scopes, AccountKey(ToLower(a)))
    {
      assert a in multiset(Addresses(ops));
      var i :| 0 <= i < |ops| && Addresses(ops)[i] == a;
      assert KeyOf(ops[i]) == Some(AccountKey(ToLower(a)));
    }
  }

  // ---------------------------------------------------------------- the block's bloom

  /** A 2048-bit log bloom as its 256 bytes. */
  type Bloom = b: seq<Byte> | |b| == 256 witness ZeroBytes(256)

  function ZeroBytes(n: nat): (r: seq<Byte>)
    ensures |r| == n && forall i :: 0 <= i < n ==> r[i] == 0
  {
    if n == 0 then [] else ZeroBytes(n - 1) + [0]
  }

  const EmptyBloom: Bloom := ZeroBytes(256)

  /** Every bit set in `small` is set in `big` (bit k of n is (n / 2^k) % 2). */
  predicate BitsIn(small: nat, big: nat)
    decreases small
  {
    small == 0 || ((small % 2 == 1 ==> big % 2 == 1) && BitsIn(small / 2, big / 2))
  }

  /** Bitwise or of two numbers of `width` bits, which again fits in `width` bits. */
  function BitOr(a: nat, b: nat, width: nat): (r: nat)
    requires a < Pow(2, width) && b < Pow(2, width)
    ensures r < Pow(2, width)
    decreases width
  {
    if width == 0 then 0
    else 2 * BitOr(a / 2, b / 2, width - 1) + (if a % 2 == 1 || b % 2 == 1 then 1 else 0)
  }

  lemma {:induction false} BitsInTransitive(a: nat, b: nat, c: nat)
    requires BitsIn(a, b) && BitsIn(b, c)
    ensures BitsIn(a, c)
    decreases a
  {
    if a != 0 {
      BitsInTransitive(a / 2, b / 2, c / 2);
    }
  }

  /** The or holds both operands' bits ... */
  lemma {:induction false} BitOrUpper(a: nat, b: nat, width: nat)
    requires a < Pow(2, width) && b < Pow(2, width)
    ensures BitsIn(a, BitOr(a, b, width)) && BitsIn(b, BitOr(a, b, width))
    decreases width
  {
    if width > 0 {
      BitOrUpper(a / 2, b / 2, width - 1);
    }
  }

  /** ... and nothing else: a number holding both operands' bits holds the or's. */
  lemma {:induction false} BitOrLeast(a: nat, b: nat, c: nat, width: nat)
    requires a < Pow(2, width) && b < Pow(2, width)
    requires BitsIn(a, c) && BitsIn(b, c)
    ensures BitsIn(BitOr(a, b, width), c)
    decreases width
  {
    if width > 0 {
      BitOrLeast(a / 2, b / 2, c / 2, width - 1);
      var r := BitOr(a, b, width);
      assert r / 2 == BitOr(a / 2, b / 2, width - 1);
    }
  }

  function OrBloom(a: Bloom, b: Bloom): Bloom
  {
    assert Pow(2, 8) == 256;
    seq(256, i requires 0 <= i < 256 => BitOr(a[i] as int, b[i] as int, 8) as Byte)
  }

  /** Every bit set in `small` is set in `big`. */
  predicate Covers(big: Bloom, small: Bloom)
  {
    forall i :: 0 <= i < 256 ==> BitsIn(small[i] as int, big[i] as int)
  }

  /** Or-ing in a bloom yields one that covers both ... */
  lemma OrBloomCovers(a: Bloom, b: Bloom)
    ensures Covers(OrBloom(a, b), a) && Covers(OrBloom(a, b), b)
  {
    assert Pow(2, 8) == 256;
    forall i | 0 <= i < 256
      ensures BitsIn(a[i] as int, OrBloom(a, b)[i] as int) && BitsIn(b[i] as int, OrBloom(a, b)[i] as int)
    {
      BitOrUpper(a[i] as int, b[i] as int, 8);
    }
  }

  /** ... and is covered by any bloom covering both. */
  lemma OrBloomLeast(a: Bloom, b: Bloom, c: Bloom)
    requires Covers(c, a) && Covers(c, b)
    ensures Covers(c, OrBloom(a, b))
  {
    assert Pow(2, 8) == 256;
    forall i | 0 <= i < 256 ensures BitsIn(OrBloom(a, b)[i] as int, c[i] as int) {
      BitOrLeast(a[i] as int, b[i] as int, c[i] as int, 8);
    }
  }

  lemma CoversTransitive(a: Bloom, b: Bloom, c: Bloom)
    requires Covers(a, b) && Covers(b, c)
    ensures Covers(a, c)
  {
    forall i | 0 <= i < 256 ensures BitsIn(c[i] as int, a[i] as int) {
      BitsInTransitive(c[i] as int, b[i] as int, a[i] as int);
    }
  }

  /** The union of the transactions' blooms. */
  function Aggregate(blooms: seq<Bloom>): Bloom
  {
    if blooms == [] then EmptyBloom else OrBloom(Aggregate(blooms[..|blooms| - 1]), blooms[|blooms| - 1])
  }

  /** The aggregate holds every transaction's bits, and nothing that is not in one of them:
      any bloom holding every transaction's bits holds the aggregate's. */
  lemma AggregateIsUnion(blooms: seq<Bloom>, c: Bloom)
    ensures forall j :: 0 <= j < |blooms| ==> Covers(Aggregate(blooms), blooms[j])
    ensures (forall j :: 0 <= j < |blooms| ==> Covers(c, blooms[j])) ==> Covers(c, Aggregate(blooms))
  {
    forall j | 0 <= j < |blooms| ensures Covers(Aggregate(blooms), blooms[j]) {
      AggregateCoversEach(blooms, j);
    }
    if forall j :: 0 <= j < |blooms| ==> Covers(c, blooms[j]) {
      AggregateLeast(blooms, c);
    }
  }

  lemma {:induction false} AggregateCoversEach(blooms: seq<Bloom>, j: nat)
    requires j < |blooms|
    ensures Covers(Aggregate(blooms), blooms[j])
    decreases |blooms|
  {
    var init, last := blooms[..|blooms| - 1], blooms[|blooms| - 1];
    var prev := Aggregate(init);
    assert Aggregate(blooms) == OrBloom(prev, last);
    OrBloomCovers(prev, last);
    if j < |init| {
      assert blooms[j] == init[j];
      AggregateCoversEach(init, j);
      CoversTransitive(Aggregate(blooms), prev, init[j]);
    }
  }

  lemma {:induction false} AggregateLeast(blooms: seq<Bloom>, c: Bloom)
    requires forall j :: 0 <= j < |blooms| ==> Covers(c, blooms[j])
    ensures Covers(c, Aggregate(blooms))
    decreases |blooms|
  {
    if blooms == [] {
      assert Covers(c, EmptyBloom);
    } else {
      var init, last := blooms[..|blooms| - 1], blooms[|blooms| - 1];
      forall j | 0 <= j < |init| ensures Covers(c, init[j]) {
        assert init[j] == blooms[j];
      }
      AggregateLeast(init, c);
      OrBloomLeast(Aggregate(init), last, c);
    }
  }

  /** `txListGetBloom`: an empty bloom, or-ed with each transaction's bloom in turn. */
  method TxListGetBloom(blooms: seq<Bloom>) returns (r: Bloom)
    ensures r == Aggregate(blooms)
  {
    r := EmptyBloom;
    for i := 0 to |blooms|
      invariant r == Aggregate(blooms[..i])
    {
      assert blooms[..i + 1][..i] == blooms[..i];
      r := OrBloom(r, blooms[i]);
    }
    assert blooms[..|blooms|] == blooms;
  }

  // ---------------------------------------------------------------- checking the result

  /** The header fields the result is checked against. */
  datatype Header = Header(bloom: Bloom, gasUsed: nat, receiptTrie: seq<Byte>)

  /** What the engine's run of the block produced: each transaction's bloom, the gas the
      step handlers added up and the root of the receipts' trie. */
  datatype RunResult = RunResult(blooms: seq<Bloom>, gasUsed: nat, receiptRoot: seq<Byte>)

  datatype Mismatch = GasUsedMismatch | LogBloomMismatch | ReceiptTrieMismatch

  /** `verifyBlock`: the mismatches it reports, in order, or the throw of a header gas too
      large for a number. */
  function VerifyBlock(h: Header, run: RunResult): Result<seq<Mismatch>, TraceError>
  {
    if h.gasUsed >= SafeNumberBound then Err(UnsafeNumber)
    else
      var gas := if h.gasUsed != run.gasUsed then [GasUsedMismatch] else [];
      var bloom := if HexEncode(h.bloom) != HexEncode(Aggregate(run.blooms)) then [LogBloomMismatch] else [];
      var receipts := if HexEncode(run.receiptRoot) != HexEncode(h.receiptTrie) then [ReceiptTrieMismatch] else [];
      Ok(gas + bloom + receipts)
  }

  /** Each mismatch is reported exactly when its two sides differ. */
  lemma VerifyBlockReports(h: Header, run: RunResult)
    requires h.gasUsed < SafeNumberBound
    ensures VerifyBlock(h, run).Ok?
    ensures GasUsedMismatch in VerifyBlock(h, run).value <==> h.gasUsed != run.gasUsed
    ensures LogBloomMismatch in VerifyBlock(h, run).value <==> h.bloom != Aggregate(run.blooms)
    ensures ReceiptTrieMismatch in VerifyBlock(h, run).value <==> run.receiptRoot != h.receiptTrie
  {
    HexEncodeInjective(h.bloom, Aggregate(run.blooms));
    HexEncodeInjective(run.receiptRoot, h.receiptTrie);
  }

  datatype Verdict = BlockOk | BloomMismatchReported | RunBlockError | Hung(error: TraceError)

  /** The closing message: the run failed, the verification threw, the bloom mismatched, or
      the block is declared OK. */
  function Conclude(h: Header, run: Option<RunResult>): Verdict
  {
    if run.None? then RunBlockError
    else match VerifyBlock(h, run.value)
      case Err(e) => Hung(e)
      case Ok(_) =>
        if HexEncode(h.bloom) != HexEncode(Aggregate(run.value.blooms)) then BloomMismatchReported else BlockOk
  }

  /** The block is declared OK exactly when the run succeeded, the header's gas fits a
      number and the blooms agree: a gas or receipt mismatch is reported but does not
      change the verdict. */
  lemma ConcludeOnlyChecksBloom(h: Header, run: Option<RunResult>)
    ensures Conclude(h, run) == BlockOk <==>
      run.Some? && h.gasUsed < SafeNumberBound && h.bloom == Aggregate(run.value.blooms)
  {
    if run.Some? {
      HexEncodeInjective(h.bloom, Aggregate(run.value.blooms));
    }
  }
}
