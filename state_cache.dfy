/**
 * The tracer's state cache: it makes accounts and storage slots of the previous block
 * available in the local state trie on first use, remembers at every call depth which
 * of them it has made available (so that a reverted call forgets its downloads and a
 * successful one hands them to its caller), and memoises the remote node's answers
 * per block number.
 */
module StateCache {
  import opened Wrappers
  import opened Encoding

  // ---------------------------------------------------------------- queries

  /** The query operations; any other name is carried in `Unknown`. */
  datatype QueryOp = Account | Code | Storage | Unknown(name: string)

  /** A request to make one account (with its code) or one storage slot available. */
  datatype Query = Query(op: QueryOp, address: string, slot: Option<string>, block: int)

  datatype CacheError =
    | BlockNumberDecrease   // the block number may only stay or grow
    | DepthStep             // the depth may only change by one at a time
    | OperationNotFound     // a query operation other than account, code or storage
    | CacheNotInitialized   // no memo exists for the query's block number
    | AlreadyHex            // a number string that already carries the "0x" prefix
    | TypeError             // a property read on an undefined value

  /** What a query is recorded under: code queries are folded into account queries, the
      address is lower-cased, and the slot is kept exactly as the query spelled it. */
  datatype Key = AccountKey(address: string) | SlotKey(address: string, slot: string)

  function KeyOf(q: Query): (k: Option<Key>)
    ensures k.Some? <==> q.op.Account? || q.op.Code? || (q.op.Storage? && q.slot.Some?)
    ensures k.Some? ==> k.value.address == ToLower(q.address)
    ensures k.Some? ==> (k.value.SlotKey? <==> q.op.Storage?)
    ensures k.Some? && k.value.SlotKey? ==> k.value.slot == q.slot.value
  {
    match q.op
    case Account => Some(AccountKey(ToLower(q.address)))
    case Code => Some(AccountKey(ToLower(q.address)))
    case Storage => if q.slot.Some? then Some(SlotKey(ToLower(q.address), q.slot.value)) else None
    case Unknown(_) => None
  }

  // ---------------------------------------------------------------- frames

  /** What one call depth has made available. The `code` part is copied when a frame is
      merged but never written, because code queries are recorded as account queries. */
  datatype Frame = Frame(account: set<string>, code: set<string>, storage: map<string, set<string>>)

  const EmptyFrame := Frame({}, {}, map[])

  function SlotsOf(f: Frame, address: string): set<string>
  {
    if address in f.storage then f.storage[address] else {}
  }

  predicate InFrame(f: Frame, k: Key)
  {
    match k
    case AccountKey(a) => a in f.account
    case SlotKey(a, s) => s in SlotsOf(f, a)
  }

  /** A frame whose merge loops would not run at all. */
  predicate IsEmpty(f: Frame)
  {
    f.account == {} && f.code == {} && f.storage == map[]
  }

  /** Recording a key adds that key and nothing else. */
  function MarkFrame(f: Frame, k: Key): (r: Frame)
    ensures forall k' :: InFrame(r, k') <==> InFrame(f, k') || k' == k
    ensures r.code == f.code
  {
    match k
    case AccountKey(a) => f.(account := f.account + {a})
    case SlotKey(a, s) => f.(storage := f.storage[a := SlotsOf(f, a) + {s}])
  }

  /** The parent frame after a committed child frame has been copied into it. */
  function MergeFrame(parent: Frame, child: Frame): (r: Frame)
    ensures forall k :: InFrame(r, k) <==> InFrame(parent, k) || InFrame(child, k)
    ensures r.code == parent.code + child.code
    ensures r.storage.Keys == parent.storage.Keys + child.storage.Keys
  {
    Frame(parent.account + child.account, parent.code + child.code, MergeStorage(parent.storage, child.storage))
  }

  /** Adds every key of `keys` to `into`, one at a time. */
  method AddKeys(into: set<string>, keys: set<string>) returns (r: set<string>)
    ensures r == into + keys
  {
    r := into;
    var rest := keys;
    while rest != {}
      invariant r + rest == into + keys
      invariant into <= r
      decreases |rest|
    {
      var key :| key in rest;
      r := r + {key};
      rest := rest - {key};
    }
  }

  /** The storage part of a merged frame: per address, the slots of both frames. */
  function MergeStorage(parent: map<string, set<string>>, child: map<string, set<string>>): map<string, set<string>>
  {
    map a | a in parent.Keys + child.Keys ::
      (if a in parent then parent[a] else {}) + (if a in child then child[a] else {})
  }

  /** The storage merge with the addresses in `pending` still to be copied. */
  ghost predicate MergedSoFar(parent: map<string, set<string>>, child: map<string, set<string>>,
                              pending: set<string>, storage: map<string, set<string>>)
  {
    && pending <= child.Keys
    && (forall a :: a in storage <==> a in parent || (a in child && a !in pending))
    && (forall a :: a in storage ==>
          storage[a] == (if a in parent then parent[a] else {}) + (if a in child && a !in pending then child[a] else {}))
  }

  lemma MergeStep(parent: map<string, set<string>>, child: map<string, set<string>>,
                  pending: set<string>, storage: map<string, set<string>>, address: string)
    requires MergedSoFar(parent, child, pending, storage) && address in pending
    ensures MergedSoFar(parent, child, pending - {address},
      storage[address := (if address in storage then storage[address] else {}) + child[address]])
  {
  }

  lemma MergeDone(parent: map<string, set<string>>, child: map<string, set<string>>, storage: map<string, set<string>>)
    requires MergedSoFar(parent, child, {}, storage)
    ensures storage == MergeStorage(parent, child)
  {
    var spec := MergeStorage(parent, child);
    forall a ensures a in storage <==> a in spec {
    }
    forall a | a in storage
      ensures storage[a] == spec[a]
    {
    }
  }

  /** Copies the child's storage slots into the parent, address by address; an address the
      parent has no entry for gets an empty one first. */
  method MergeStorageSlots(parent: map<string, set<string>>, child: map<string, set<string>>)
    returns (storage: map<string, set<string>>)
    ensures storage == MergeStorage(parent, child)
  {
    storage := parent;
    var addresses := child.Keys;
    while addresses != {}
      invariant MergedSoFar(parent, child, addresses, storage)
      decreases |addresses|
    {
      var address :| address in addresses;
      MergeStep(parent, child, addresses, storage, address);
      ghost var next := storage[address := (if address in storage then storage[address] else {}) + child[address]];
      if address !in storage {
        storage := storage[address := {}];
      }
      var slots := AddKeys(storage[address], child[address]);
      storage := storage[address := slots];
      assert storage == next;
      addresses := addresses - {address};
    }
    MergeDone(parent, child, storage);
  }

  /** Copies the child's accounts, code and storage slots into the parent. */
  method MergeFrames(parent: Frame, child: Frame) returns (merged: Frame)
    ensures merged == MergeFrame(parent, child)
  {
    var account := AddKeys(parent.account, child.account);
    var code := AddKeys(parent.code, child.code);
    var storage := MergeStorageSlots(parent.storage, child.storage);
    merged := Frame(account, code, storage);
  }

  // ---------------------------------------------------------------- scopes

  /** The frames by depth, and the current depth (which a revert at depth 0 takes below 0). */
  datatype ScopeStack = ScopeStack(frames: map<int, Frame>, depth: int)

  /** Every depth from 0 up to the current one has a frame. */
  predicate WellFormed(s: ScopeStack)
  {
    0 in s.frames && forall d :: 0 <= d <= s.depth ==> d in s.frames
  }

  /** A key counts as available when some frame from the current depth down to 0 has it. */
  predicate Visible(s: ScopeStack, k: Key)
  {
    exists d :: 0 <= d <= s.depth && d in s.frames && InFrame(s.frames[d], k)
  }

  /** Entering a call: a fresh, empty frame one level deeper, replacing any stale one. */
  function Push(s: ScopeStack): ScopeStack
  {
    ScopeStack(s.frames[s.depth + 1 := EmptyFrame], s.depth + 1)
  }

  /** Leaving a call. A revert only lowers the depth. A commit first copies the current frame
      into the one below; a missing frame is a TypeError, except that copying an empty frame
      into a missing one touches nothing. */
  function Pop(s: ScopeStack, revert: bool): Result<ScopeStack, CacheError>
  {
    if revert then Ok(s.(depth := s.depth - 1))
    else if s.depth !in s.frames then Err(TypeError)
    else if s.depth - 1 !in s.frames then
      if IsEmpty(s.frames[s.depth]) then Ok(s.(depth := s.depth - 1)) else Err(TypeError)
    else Ok(ScopeStack(s.frames[s.depth - 1 := MergeFrame(s.frames[s.depth - 1], s.frames[s.depth])], s.depth - 1))
  }

  /** `changeDepth(diff, revert)` on the scope stack. */
  function StepDepth(s: ScopeStack, diff: int, revert: bool): Result<ScopeStack, CacheError>
  {
    if diff == 1 then Ok(Push(s))
    else if diff == -1 then Pop(s, revert)
    else Err(DepthStep)
  }

  /** Recording a key in the current frame. */
  function MarkTop(s: ScopeStack, k: Key): (r: ScopeStack)
    requires s.depth in s.frames
    ensures r.depth == s.depth && r.frames.Keys == s.frames.Keys
    ensures forall d :: d in s.frames && d != s.depth ==> r.frames[d] == s.frames[d]
  {
    s.(frames := s.frames[s.depth := MarkFrame(s.frames[s.depth], k)])
  }

  lemma MarkTopVisible(s: ScopeStack, k: Key)
    requires WellFormed(s) && s.depth >= 0
    ensures WellFormed(MarkTop(s, k))
    ensures forall k' :: Visible(MarkTop(s, k), k') <==> Visible(s, k') || k' == k
  {
    var r := MarkTop(s, k);
    forall k' ensures Visible(r, k') <==> Visible(s, k') || k' == k {
      if Visible(r, k') {
        var d :| 0 <= d <= r.depth && d in r.frames && InFrame(r.frames[d], k');
        if d != s.depth {
          assert InFrame(s.frames[d], k');
        }
      }
      if k' == k {
        assert InFrame(r.frames[s.depth], k);
      }
    }
  }

  /** Entering a call neither shows nor hides anything: frames deeper than the current one
      were invisible, and the one it replaces is among them. */
  lemma PushKeepsVisible(s: ScopeStack)
    requires WellFormed(s)
    ensures WellFormed(Push(s)) && Push(s).depth == s.depth + 1
    ensures forall k :: Visible(Push(s), k) <==> Visible(s, k)
  {
    var p := Push(s);
    forall k ensures Visible(p, k) <==> Visible(s, k) {
      if Visible(p, k) {
        var d :| 0 <= d <= p.depth && d in p.frames && InFrame(p.frames[d], k);
        assert d != p.depth;
        assert InFrame(s.frames[d], k);
      }
      if Visible(s, k) {
        var d :| 0 <= d <= s.depth && d in s.frames && InFrame(s.frames[d], k);
        assert InFrame(p.frames[d], k);
      }
    }
  }

  /** Merging the current frame into its caller's and stepping down keeps every key
      visible that was visible, and adds none. */
  lemma MergeKeepsVisible(s: ScopeStack)
    requires WellFormed(s) && s.depth >= 1
    ensures var t := s.depth;
      var r := ScopeStack(s.frames[t - 1 := MergeFrame(s.frames[t - 1], s.frames[t])], t - 1);
      forall k :: Visible(r, k) <==> Visible(s, k)
  {
    var t := s.depth;
    var merged := MergeFrame(s.frames[t - 1], s.frames[t]);
    var r := ScopeStack(s.frames[t - 1 := merged], t - 1);
    forall k | Visible(r, k) ensures Visible(s, k) {
      var d :| 0 <= d <= r.depth && d in r.frames && InFrame(r.frames[d], k);
      if d == t - 1 {
        assert InFrame(merged, k);
        var w := if InFrame(s.frames[t - 1], k) then t - 1 else t;
        assert 0 <= w <= s.depth && w in s.frames && InFrame(s.frames[w], k);
      } else {
        assert r.frames[d] == s.frames[d];
      }
    }
    forall k | Visible(s, k) ensures Visible(r, k) {
      var d :| 0 <= d <= s.depth && d in s.frames && InFrame(s.frames[d], k);
      var w := if d >= t - 1 then t - 1 else d;
      assert r.frames[w] == if w == t - 1 then merged else s.frames[w];
      assert 0 <= w <= r.depth && w in r.frames && InFrame(r.frames[w], k);
    }
  }

  /** Committing a call moves its frame into its caller's, so what is visible does not
      change; only a commit at depth 0 can fail, and only when frame 0 is not empty. */
  lemma CommitKeepsVisible(s: ScopeStack)
    requires WellFormed(s) && s.depth >= 0
    ensures s.depth == 0 && -1 !in s.frames ==> (Pop(s, false).Ok? <==> IsEmpty(s.frames[0]))
    ensures s.depth >= 1 ==> Pop(s, false).Ok? && WellFormed(Pop(s, false).value) && Pop(s, false).value.depth == s.depth - 1
    ensures s.depth >= 1 ==> forall k :: Visible(Pop(s, false).value, k) <==> Visible(s, k)
  {
    if s.depth >= 1 {
      var t := s.depth;
      assert t in s.frames && t - 1 in s.frames;
      var r := ScopeStack(s.frames[t - 1 := MergeFrame(s.frames[t - 1], s.frames[t])], t - 1);
      assert Pop(s, false) == Ok(r);
      MergeKeepsVisible(s);
    }
  }

  /** A call that ends in a revert leaves visible exactly what was visible before it began,
      whatever it recorded. */
  lemma RevertScope(s: ScopeStack, child: Frame)
    requires WellFormed(s) && s.depth >= 0
    ensures var inner := ScopeStack(s.frames[s.depth + 1 := child], s.depth + 1);
      && Pop(inner, true).Ok? && WellFormed(Pop(inner, true).value) && Pop(inner, true).value.depth == s.depth
      && (forall k :: Visible(Pop(inner, true).value, k) <==> Visible(s, k))
  {
    var inner := ScopeStack(s.frames[s.depth + 1 := child], s.depth + 1);
    var reverted := Pop(inner, true).value;
    assert reverted == ScopeStack(s.frames[s.depth + 1 := child], s.depth);
    forall k ensures Visible(reverted, k) <==> Visible(s, k) {
      if Visible(reverted, k) {
        var d :| 0 <= d <= reverted.depth && d in reverted.frames && InFrame(reverted.frames[d], k);
        assert InFrame(s.frames[d], k);
      }
      if Visible(s, k) {
        var d :| 0 <= d <= s.depth && d in s.frames && InFrame(s.frames[d], k);
        assert InFrame(reverted.frames[d], k);
      }
    }
  }

  /** A call that ends in a commit adds to what was visible before it began exactly what it
      recorded. */
  lemma CommitScope(s: ScopeStack, child: Frame)
    requires WellFormed(s) && s.depth >= 0
    ensures var inner := ScopeStack(s.frames[s.depth + 1 := child], s.depth + 1);
      && Pop(inner, false).Ok? && WellFormed(Pop(inner, false).value) && Pop(inner, false).value.depth == s.depth
      && (forall k :: Visible(Pop(inner, false).value, k) <==> Visible(s, k) || InFrame(child, k))
  {
    var inner := ScopeStack(s.frames[s.depth + 1 := child], s.depth + 1);
    var merged := MergeFrame(s.frames[s.depth], child);
    var committed := Pop(inner, false).value;
    assert committed == ScopeStack(inner.frames[s.depth := merged], s.depth);
    forall k ensures Visible(committed, k) <==> Visible(s, k) || InFrame(child, k) {
      if Visible(committed, k) {
        var d :| 0 <= d <= committed.depth && d in committed.frames && InFrame(committed.frames[d], k);
        if d != s.depth {
          assert InFrame(s.frames[d], k);
        }
      }
      if Visible(s, k) {
        var d :| 0 <= d <= s.depth && d in s.frames && InFrame(s.frames[d], k);
        assert InFrame(committed.frames[d], k);
      }
      if InFrame(child, k) {
        assert InFrame(committed.frames[s.depth], k);
      }
    }
  }

  // ---------------------------------------------------------------- values

  /** The number string with an even count of hexadecimal digits behind "0x", or an error when
      it already carries the prefix. Only decimal strings reach it from the cache itself. */
  function NumberStringToHexString(s: string): (r: Result<string, CacheError>)
    requires IsDecimalString(s) || HasHexPrefix(s)
    ensures r.Err? <==> HasHexPrefix(s)
  {
    if HasHexPrefix(s) then Err(AlreadyHex) else Ok(HexQuantity(DecimalValue(s)))
  }

  /** The digits with a "0" in front when their count is odd. */
  function EvenPad(h: string): (r: string)
    ensures |r| % 2 == 0 && |h| <= |r| <= |h| + 1
  {
    if |h| % 2 == 1 then "0" + h else h
  }

  /** "0x" and the digits of `n`, padded to an even count. */
  function HexQuantity(n: nat): (r: string)
    ensures HasHexPrefix(r)
  {
    var r := "0x" + EvenPad(ToHex(n));
    assert r[..2] == "0x";
    r
  }

  /** Every nonce and balance written to the trie reads back as the number it came from. */
  lemma {:induction false} HexQuantityValue(n: nat)
    ensures NumberStringToHexString(ToDecimal(n)) == Ok(HexQuantity(n))
    ensures var h := Drop2(HexQuantity(n));
      |h| % 2 == 0 && |h| >= 2 && IsLowerHex(h) && HexValue(h) == n
  {
    DecimalIsNotHex(ToDecimal(n));
    ToDecimalValue(n);
    var t := ToHex(n);
    ToHexValue(n);
    var h := Drop2(HexQuantity(n));
    assert h == EvenPad(t);
    if |t| % 2 == 1 {
      HexValueZeroPrefix("0", t);
    }
  }

  /** The address as bytes: an optional "0x" dropped, left-padded to 40 digits, decoded. */
  function AddressToBuffer(input: string): seq<Byte>
  {
    var digits := if HasHexPrefix(input) then Drop2(input) else input;
    HexDecode(PadStart(digits, 40, '0'))
  }

  /** A well-formed address becomes the 20 bytes that denote the same number. */
  lemma AddressToBufferValue(input: string)
    requires HasHexPrefix(input) && IsHexString(Drop2(input)) && |Drop2(input)| <= 40
    ensures |AddressToBuffer(input)| == 20 && BytesValue(AddressToBuffer(input)) == HexValue(Drop2(input))
  {
    var p := PadStart(Drop2(input), 40, '0');
    PadStartHex(Drop2(input), 40);
    HexDecodeLength(p);
    HexDecodeValue(p);
  }

  /** The slot as a 32-byte trie key: first two characters dropped, padded to 64 digits. */
  function SlotBytes(slot: string): seq<Byte>
  {
    HexDecode(PadStart(Drop2(slot), 64, '0'))
  }

  function StripLeadingZeros(b: seq<Byte>): (r: seq<Byte>)
    ensures |r| <= |b| && r == b[|b| - |r|..]
    ensures forall i :: 0 <= i < |b| - |r| ==> b[i] == 0
    ensures r == [] || r[0] != 0
  {
    if b != [] && b[0] == 0 then
      var r := StripLeadingZeros(b[1..]);
      assert b[1..][|b| - 1 - |r|..] == b[|b| - |r|..];
      assert forall i :: 1 <= i < |b| - |r| ==> b[i] == b[1..][i - 1];
      r
    else b
  }

  lemma {:induction false} LeadingZeroValue(b: seq<Byte>)
    ensures BytesValue([0 as Byte] + b) == BytesValue(b)
    decreases |b|
  {
    if b != [] {
      var c := [0 as Byte] + b;
      assert c[..|c| - 1] == [0 as Byte] + b[..|b| - 1];
      LeadingZeroValue(b[..|b| - 1]);
    }
  }

  /** Stripping leading zero bytes keeps the number a word denotes. */
  lemma {:induction false} StripLeadingZerosValue(b: seq<Byte>)
    ensures BytesValue(StripLeadingZeros(b)) == BytesValue(b)
    decreases |b|
  {
    if b != [] && b[0] == 0 {
      StripLeadingZerosValue(b[1..]);
      assert b == [0 as Byte] + b[1..];
      LeadingZeroValue(b[1..]);
    }
  }

  /** The bytes the trie keeps for a storage word the node returned. */
  function StoredWord(word: string): seq<Byte>
  {
    StripLeadingZeros(HexDecode(Drop2(word)))
  }

  /** A word of "0x" and an even number of digits is stored as the number it denotes, with
      no leading zero byte. */
  lemma StoredWordValue(word: string)
    requires HasHexPrefix(word) && IsHexString(Drop2(word)) && |Drop2(word)| % 2 == 0
    ensures BytesValue(StoredWord(word)) == HexValue(Drop2(word))
    ensures StoredWord(word) == [] || StoredWord(word)[0] != 0
  {
    HexDecodeValue(Drop2(word));
    StripLeadingZerosValue(HexDecode(Drop2(word)));
  }

  // ---------------------------------------------------------------- remote node and memo

  /** The remote node's answers for an address at a block number. */
  datatype Remote = Remote(
    transactionCount: (string, int) -> nat,
    balance: (string, int) -> nat,
    code: (string, int) -> string,
    storageAt: (string, string, int) -> string)

  /** The memo for one block number, keyed by the address exactly as queried. */
  datatype Tables = Tables(
    nonces: map<string, nat>,
    balances: map<string, nat>,
    codes: map<string, string>,
    storage: map<string, map<string, string>>)

  const EmptyTables := Tables(map[], map[], map[], map[])

  /** A memo entry always repeats the node's answer, and code and storage values are never
      memoised (a storage lookup only leaves an empty table for its address). */
  predicate TablesSound(t: Tables, remote: Remote, block: int)
  {
    && (forall a :: a in t.nonces ==> t.nonces[a] == remote.transactionCount(a, block))
    && (forall a :: a in t.balances ==> t.balances[a] == remote.balance(a, block))
    && t.codes == map[]
    && (forall a :: a in t.storage ==> t.storage[a] == map[])
  }

  predicate MemoSound(memo: map<int, Tables>, remote: Remote)
  {
    forall b :: b in memo ==> TablesSound(memo[b], remote, b)
  }

  /** Replacing one block's tables by sound ones keeps the memo sound. */
  lemma MemoUpdateSound(memo: map<int, Tables>, remote: Remote, block: int, t: Tables)
    requires MemoSound(memo, remote) && TablesSound(t, remote, block)
    ensures MemoSound(memo[block := t], remote)
  {
    var m := memo[block := t];
    forall b | b in m ensures TablesSound(m[b], remote, b) {
      if b != block {
        assert m[b] == memo[b];
      }
    }
  }

  /** A value, the number of requests sent to the node for it, and the memo afterwards. */
  datatype Fetched<T> = Fetched(value: T, requests: nat, tables: Tables)

  /** A memoised nonce is used only when it is not zero. */
  function FetchNonce(t: Tables, remote: Remote, address: string, block: int): Fetched<nat>
  {
    if address in t.nonces && t.nonces[address] != 0 then Fetched(t.nonces[address], 0, t)
    else
      var n := remote.transactionCount(address, block);
      Fetched(n, 1, t.(nonces := t.nonces[address := n]))
  }

  /** A memoised balance is always used: the node reports it as a non-empty string. */
  function FetchBalance(t: Tables, remote: Remote, address: string, block: int): Fetched<nat>
  {
    if address in t.balances then Fetched(t.balances[address], 0, t)
    else
      var n := remote.balance(address, block);
      Fetched(n, 1, t.(balances := t.balances[address := n]))
  }

  /** Code is looked up in the memo but never stored there. */
  function FetchCode(t: Tables, remote: Remote, address: string, block: int): Fetched<string>
  {
    if address in t.codes && t.codes[address] != "" then Fetched(t.codes[address], 0, t)
    else Fetched(remote.code(address, block), 1, t)
  }

  /** A storage value is looked up in the memo but never stored; an address without a
      table gets an empty one. */
  function FetchStorage(t: Tables, remote: Remote, address: string, slot: string, block: int): Fetched<string>
  {
    if address in t.storage then
      if slot in t.storage[address] && t.storage[address][slot] != "" then Fetched(t.storage[address][slot], 0, t)
      else Fetched(remote.storageAt(address, slot, block), 1, t)
    else Fetched(remote.storageAt(address, slot, block), 1, t.(storage := t.storage[address := map[]]))
  }

  /** The memo is transparent: every fetch returns what the node says, and keeps the memo sound. */
  lemma FetchesAgree(t: Tables, remote: Remote, address: string, slot: string, block: int)
    requires TablesSound(t, remote, block)
    ensures FetchNonce(t, remote, address, block).value == remote.transactionCount(address, block)
    ensures FetchBalance(t, remote, address, block).value == remote.balance(address, block)
    ensures FetchCode(t, remote, address, block).value == remote.code(address, block)
    ensures FetchStorage(t, remote, address, slot, block).value == remote.storageAt(address, slot, block)
    ensures TablesSound(FetchNonce(t, remote, address, block).tables, remote, block)
    ensures TablesSound(FetchBalance(t, remote, address, block).tables, remote, block)
    ensures TablesSound(FetchCode(t, remote, address, block).tables, remote, block)
    ensures TablesSound(FetchStorage(t, remote, address, slot, block).tables, remote, block)
  {
  }

  // ---------------------------------------------------------------- the local state trie

  datatype AccountFields = AccountFields(nonce: string, balance: string)

  /** The parts of the local state trie the cache writes. */
  datatype StateTrie = StateTrie(
    accounts: map<seq<Byte>, AccountFields>,
    code: map<seq<Byte>, seq<Byte>>,
    storage: map<(seq<Byte>, seq<Byte>), seq<Byte>>)

  // ---------------------------------------------------------------- processing a query

  datatype CacheState = CacheState(
    blockNumber: int,
    scopes: ScopeStack,
    memo: map<int, Tables>,
    trie: StateTrie,
    requests: nat)

  datatype QueryOutcome = Hit | Loaded | Failed(error: CacheError)

  datatype Processed = Processed(state: CacheState, outcome: QueryOutcome)

  /** Records the key in the current frame once the trie has been written; when the frame
      is missing this throws, but the downloads stay. */
  function Record(st: CacheState, k: Key): (r: Processed)
    requires WellFormed(st.scopes)
    ensures WellFormed(r.state.scopes) && r.state.scopes.depth == st.scopes.depth
    ensures r.state.(scopes := st.scopes) == st
    ensures r.outcome == Loaded || r.outcome == Failed(TypeError)
  {
    if st.scopes.depth in st.scopes.frames then Processed(st.(scopes := MarkTop(st.scopes, k)), Loaded)
    else Processed(st, Failed(TypeError))
  }

  /** The trie after the account is put with its nonce and balance as hexadecimal
      quantities and its code is put as the bytes of the code's digits. */
  function PutAccount(trie: StateTrie, address: string, nonce: nat, balance: nat, code: string): StateTrie
  {
    var key := AddressToBuffer(address);
    trie.(
      accounts := trie.accounts[key := AccountFields(HexQuantity(nonce), HexQuantity(balance))],
      code := trie.code[key := HexDecode(Drop2(code))])
  }

  /** The trie after a storage word is put under the account and the padded slot. */
  function PutStorage(trie: StateTrie, address: string, slot: string, word: seq<Byte>): StateTrie
  {
    trie.(storage := trie.storage[(AddressToBuffer(address), SlotBytes(slot)) := word])
  }

  /** Downloads nonce, balance and code of an account into the trie. */
  function LoadAccount(st: CacheState, remote: Remote, address: string, block: int): (r: CacheState)
    requires block in st.memo
    ensures r.scopes == st.scopes && r.blockNumber == st.blockNumber
    ensures r.memo.Keys == st.memo.Keys && r.requests >= st.requests
  {
    var nonce := FetchNonce(st.memo[block], remote, address, block);
    var balance := FetchBalance(nonce.tables, remote, address, block);
    var code := FetchCode(balance.tables, remote, address, block);
    var memo := st.memo[block := code.tables];
    assert memo.Keys == st.memo.Keys;
    st.(memo := memo, trie := PutAccount(st.trie, address, nonce.value, balance.value, code.value),
        requests := st.requests + nonce.requests + balance.requests + code.requests)
  }

  /** Downloads one storage slot into the trie. */
  function LoadSlot(st: CacheState, remote: Remote, address: string, slot: string, block: int): (r: CacheState)
    requires block in st.memo
    ensures r.scopes == st.scopes && r.blockNumber == st.blockNumber
    ensures r.memo.Keys == st.memo.Keys && r.requests >= st.requests
  {
    var f := FetchStorage(st.memo[block], remote, address, slot, block);
    var memo := st.memo[block := f.tables];
    assert memo.Keys == st.memo.Keys;
    st.(memo := memo, trie := PutStorage(st.trie, address, slot, StoredWord(f.value)), requests := st.requests + f.requests)
  }

  /** A key already visible is a hit; otherwise the block's memo must exist, the value is
      downloaded and the key recorded. */
  function Lookup(st: CacheState, remote: Remote, q: Query, k: Key): (r: Processed)
    requires WellFormed(st.scopes)
    ensures WellFormed(r.state.scopes) && r.state.scopes.depth == st.scopes.depth
    ensures r.state.blockNumber == st.blockNumber && r.state.memo.Keys == st.memo.Keys
    ensures r.state.requests >= st.requests
  {
    if Visible(st.scopes, k) then Processed(st, Hit)
    else if q.block !in st.memo then Processed(st, Failed(CacheNotInitialized))
    else if q.op.Storage? && q.slot.Some? then Record(LoadSlot(st, remote, q.address, q.slot.value, q.block), k)
    else Record(LoadAccount(st, remote, q.address, q.block), k)
  }

  /** One query, from the check of the visible frames through the download to the record. */
  function Process(st: CacheState, remote: Remote, q: Query): (r: Processed)
    requires WellFormed(st.scopes)
    ensures WellFormed(r.state.scopes) && r.state.scopes.depth == st.scopes.depth
    ensures r.state.blockNumber == st.blockNumber && r.state.memo.Keys == st.memo.Keys
    ensures r.state.requests >= st.requests
  {
    match KeyOf(q)
    case Some(k) => Lookup(st, remote, q, k)
    case None =>
      if q.op.Unknown? && st.scopes.depth < 0 then Processed(st, Failed(OperationNotFound))
      else Processed(st, Failed(TypeError))
  }

  /** A query with a key is answered from the frames exactly when its key is visible, and
      then nothing changes. */
  lemma ProcessHitIffVisible(st: CacheState, remote: Remote, q: Query)
    requires WellFormed(st.scopes) && KeyOf(q).Some?
    ensures Process(st, remote, q).outcome == Hit <==> Visible(st.scopes, KeyOf(q).value)
    ensures Process(st, remote, q).outcome == Hit ==> Process(st, remote, q).state == st
  {
  }

  /** The error cases: an unknown operation, a storage query without a slot and a block
      number without a memo change nothing. */
  lemma ProcessErrors(st: CacheState, remote: Remote, q: Query)
    requires WellFormed(st.scopes)
    ensures q.op.Unknown? ==>
      Process(st, remote, q) == Processed(st, Failed(if st.scopes.depth >= 0 then TypeError else OperationNotFound))
    ensures q.op.Storage? && q.slot.None? ==> Process(st, remote, q) == Processed(st, Failed(TypeError))
    ensures KeyOf(q).Some? && !Visible(st.scopes, KeyOf(q).value) && q.block !in st.memo ==>
      Process(st, remote, q) == Processed(st, Failed(CacheNotInitialized))
  {
  }

  /** After a query at a non-negative depth for an initialised block, its key is visible; a
      query only ever adds its own key to what is visible. */
  lemma ProcessVisible(st: CacheState, remote: Remote, q: Query)
    requires WellFormed(st.scopes)
    ensures var r := Process(st, remote, q);
      forall k :: Visible(r.state.scopes, k) <==>
        Visible(st.scopes, k) || (r.outcome == Loaded && st.scopes.depth >= 0 && Some(k) == KeyOf(q))
    ensures KeyOf(q).Some? && q.block in st.memo && st.scopes.depth >= 0 ==>
      Process(st, remote, q).outcome in {Hit, Loaded} && Visible(Process(st, remote, q).state.scopes, KeyOf(q).value)
  {
    var r := Process(st, remote, q);
    if r.outcome == Loaded {
      if st.scopes.depth >= 0 {
        MarkTopVisible(st.scopes, KeyOf(q).value);
      } else {
        forall k ensures !Visible(r.state.scopes, k) && !Visible(st.scopes, k) {
        }
      }
    }
  }

  /** Downloading an account writes the node's nonce, balance and code for it and nothing
      else; it costs a request for the code every time, one for the nonce unless a non-zero
      nonce is memoised, and one for the balance unless a balance is memoised. */
  lemma LoadAccountAgrees(st: CacheState, remote: Remote, address: string, block: int)
    requires block in st.memo && MemoSound(st.memo, remote)
    ensures var r := LoadAccount(st, remote, address, block);
      && MemoSound(r.memo, remote)
      && r.trie.accounts == st.trie.accounts[AddressToBuffer(address) :=
           AccountFields(HexQuantity(remote.transactionCount(address, block)), HexQuantity(remote.balance(address, block)))]
      && r.trie.code == st.trie.code[AddressToBuffer(address) := HexDecode(Drop2(remote.code(address, block)))]
      && r.trie.storage == st.trie.storage
      && r.requests == st.requests + 1
           + (if address in st.memo[block].nonces && remote.transactionCount(address, block) != 0 then 0 else 1)
           + (if address in st.memo[block].balances then 0 else 1)
  {
    var t := st.memo[block];
    FetchesAgree(t, remote, address, "", block);
    var nonce := FetchNonce(t, remote, address, block);
    FetchesAgree(nonce.tables, remote, address, "", block);
    var balance := FetchBalance(nonce.tables, remote, address, block);
    FetchesAgree(balance.tables, remote, address, "", block);
    var code := FetchCode(balance.tables, remote, address, block);
    MemoUpdateSound(st.memo, remote, block, code.tables);
    var r := LoadAccount(st, remote, address, block);
    assert r.memo == st.memo[block := code.tables];
    assert r.trie == PutAccount(st.trie, address, nonce.value, balance.value, code.value);
  }

  /** Downloading a slot writes the node's word for it, stripped of leading zero bytes, and
      nothing else; it always costs one request. */
  lemma LoadSlotAgrees(st: CacheState, remote: Remote, address: string, slot: string, block: int)
    requires block in st.memo && MemoSound(st.memo, remote)
    ensures var r := LoadSlot(st, remote, address, slot, block);
      && MemoSound(r.memo, remote)
      && r.trie.storage == st.trie.storage[(AddressToBuffer(address), SlotBytes(slot)) :=
           StoredWord(remote.storageAt(address, slot, block))]
      && r.trie.accounts == st.trie.accounts && r.trie.code == st.trie.code
      && r.requests == st.requests + 1
  {
    LoadSlotMemo(st, remote, address, slot, block);
    var word := StoredWord(remote.storageAt(address, slot, block));
    assert LoadSlot(st, remote, address, slot, block).trie == PutStorage(st.trie, address, slot, word);
  }

  /** The memo half of `LoadSlotAgrees`: the fetch returns the node's word and keeps the
      memo sound, at the cost of one request. */
  lemma LoadSlotMemo(st: CacheState, remote: Remote, address: string, slot: string, block: int)
    requires block in st.memo && MemoSound(st.memo, remote)
    ensures var f := FetchStorage(st.memo[block], remote, address, slot, block);
      && f.value == remote.storageAt(address, slot, block)
      && MemoSound(LoadSlot(st, remote, address, slot, block).memo, remote)
      && LoadSlot(st, remote, address, slot, block).requests == st.requests + 1
  {
    var t := st.memo[block];
    FetchesAgree(t, remote, address, slot, block);
    var f := FetchStorage(t, remote, address, slot, block);
    MemoUpdateSound(st.memo, remote, block, f.tables);
    var r := LoadSlot(st, remote, address, slot, block);
    assert r.memo == st.memo[block := f.tables];
    assert TablesSound(t, remote, block);
    if address in t.storage {
      assert t.storage[address] == map[];
      assert slot !in t.storage[address];
      assert f == Fetched(remote.storageAt(address, slot, block), 1, t);
    } else {
      assert f == Fetched(remote.storageAt(address, slot, block), 1, t.(storage := t.storage[address := map[]]));
    }
    assert r.requests == st.requests + f.requests;
  }

  /** A query keeps the memo sound, and the trie changes only by the download of a query
      whose key was not visible and whose block has a memo. */
  lemma ProcessStoresRemote(st: CacheState, remote: Remote, q: Query)
    requires WellFormed(st.scopes) && MemoSound(st.memo, remote)
    ensures var r := Process(st, remote, q);
      && MemoSound(r.state.memo, remote)
      && (r.outcome == Loaded && q.op.Storage? ==> r.state.(scopes := st.scopes) == LoadSlot(st, remote, q.address, q.slot.value, q.block))
      && (r.outcome == Loaded && !q.op.Storage? ==> r.state.(scopes := st.scopes) == LoadAccount(st, remote, q.address, q.block))
      && (r.outcome == Hit || r.outcome == Failed(CacheNotInitialized) || r.outcome == Failed(OperationNotFound) ==> r.state == st)
  {
    match KeyOf(q)
    case None =>
      assert Process(st, remote, q).state == st;
      assert Process(st, remote, q).outcome.Failed?;
    case Some(k) =>
      if Visible(st.scopes, k) {
        assert Process(st, remote, q) == Processed(st, Hit);
      } else if q.block !in st.memo {
        assert Process(st, remote, q) == Processed(st, Failed(CacheNotInitialized));
      } else if q.op.Storage? {
        var l := LoadSlot(st, remote, q.address, q.slot.value, q.block);
        LoadSlotAgrees(st, remote, q.address, q.slot.value, q.block);
        var r := Record(l, k);
        assert Process(st, remote, q) == r;
        assert r.outcome == Loaded || r.outcome == Failed(TypeError);
        assert r.state.memo == l.memo;
        assert r.state.(scopes := st.scopes) == l;
      } else {
        var l := LoadAccount(st, remote, q.address, q.block);
        LoadAccountAgrees(st, remote, q.address, q.block);
        var r := Record(l, k);
        assert Process(st, remote, q) == r;
        assert r.outcome == Loaded || r.outcome == Failed(TypeError);
        assert r.state.memo == l.memo;
        assert r.state.(scopes := st.scopes) == l;
      }
  }

  /** Queries one after another, each failure ignored. */
  function ProcessAll(st: CacheState, remote: Remote, qs: seq<Query>): (r: CacheState)
    requires WellFormed(st.scopes)
    ensures WellFormed(r.scopes) && r.scopes.depth == st.scopes.depth && r.memo.Keys == st.memo.Keys
    decreases |qs|
  {
    if qs == [] then st else ProcessAll(Process(st, remote, qs[0]).state, remote, qs[1..])
  }

  /** Each query of a batch carries its own `catch`: a query that throws is logged, and the
      batch goes on from the state the failed query left (with whatever it downloaded). */
  lemma ProcessAllAfterFailure(st: CacheState, remote: Remote, q: Query, rest: seq<Query>)
    requires WellFormed(st.scopes) && Process(st, remote, q).outcome.Failed?
    ensures ProcessAll(st, remote, [q] + rest) == ProcessAll(Process(st, remote, q).state, remote, rest)
  {
    assert ([q] + rest)[0] == q && ([q] + rest)[1..] == rest;
  }

  /** After a batch at a non-negative depth whose block numbers are all initialised, every
      account and slot the batch names is visible, and nothing visible before was lost. */
  lemma {:induction false} ProcessAllVisible(st: CacheState, remote: Remote, qs: seq<Query>)
    requires WellFormed(st.scopes) && st.scopes.depth >= 0
    requires forall i :: 0 <= i < |qs| ==> qs[i].block in st.memo
    ensures forall k :: Visible(st.scopes, k) ==> Visible(ProcessAll(st, remote, qs).scopes, k)
    ensures forall i :: 0 <= i < |qs| && KeyOf(qs[i]).Some? ==> Visible(ProcessAll(st, remote, qs).scopes, KeyOf(qs[i]).value)
    decreases |qs|
  {
    if qs != [] {
      var next := Process(st, remote, qs[0]).state;
      ProcessVisible(st, remote, qs[0]);
      ProcessAllVisible(next, remote, qs[1..]);
      forall i | 0 <= i < |qs| && KeyOf(qs[i]).Some?
        ensures Visible(ProcessAll(st, remote, qs).scopes, KeyOf(qs[i]).value)
      {
        if i > 0 {
          assert qs[1..][i - 1] == qs[i];
        }
      }
    }
  }

  // ---------------------------------------------------------------- the cache object

  class Cache {
    const remote: Remote
    var blockNumber: int
    var depth: int
    var frames: map<int, Frame>
    var memo: map<int, Tables>
    var trie: StateTrie
    var requests: nat

    function Scopes(): ScopeStack
      reads this
    {
      ScopeStack(frames, depth)
    }

    function State(): CacheState
      reads this
    {
      CacheState(blockNumber, ScopeStack(frames, depth), memo, trie, requests)
    }

    ghost predicate Valid()
      reads this
    {
      WellFormed(Scopes()) && MemoSound(memo, remote)
    }

    /** Block number 0, depth 0 with an empty frame 0, and no memo yet. */
    constructor(remote: Remote, trie: StateTrie)
      ensures Valid() && this.remote == remote
      ensures State() == CacheState(0, ScopeStack(map[0 := EmptyFrame], 0), map[], trie, 0)
    {
      this.remote := remote;
      blockNumber := 0;
      depth := 0;
      frames := map[0 := EmptyFrame];
      memo := map[];
      this.trie := trie;
      requests := 0;
    }

    /** Moves to a block number no lower than the current one, with a fresh, empty memo. */
    method SetBlockNumber(n: int) returns (r: Outcome<CacheError>)
      requires Valid()
      modifies this
      ensures Valid()
      ensures r == (if n < old(blockNumber) then Fail(BlockNumberDecrease) else Pass)
      ensures r.Pass? ==> State() == old(State()).(blockNumber := n, memo := old(memo)[n := EmptyTables])
      ensures r.Fail? ==> State() == old(State())
    {
      if n < blockNumber {
        return Fail(BlockNumberDecrease);
      }
      blockNumber := n;
      memo := memo[n := EmptyTables];
      r := Pass;
    }

    /** One level deeper (`diff == 1`) or one level back (`diff == -1`), committing or
        reverting the frame being left. */
    method ChangeDepth(diff: int, revert: bool) returns (r: Outcome<CacheError>)
      requires Valid()
      modifies this
      ensures StepDepth(old(Scopes()), diff, revert).Ok? ==> r == Pass && Scopes() == StepDepth(old(Scopes()), diff, revert).value
      ensures StepDepth(old(Scopes()), diff, revert).Err? ==> r == Fail(StepDepth(old(Scopes()), diff, revert).error) && Scopes() == old(Scopes())
      ensures blockNumber == old(blockNumber) && memo == old(memo) && trie == old(trie) && requests == old(requests)
      ensures Valid()
    {
      if diff == 1 {
        depth := depth + 1;
        frames := frames[depth := EmptyFrame];
        return Pass;
      } else if diff == -1 {
        if !revert {
          if depth !in frames {
            return Fail(TypeError);
          }
          var child := frames[depth];
          if depth - 1 in frames {
            var merged := MergeFrames(frames[depth - 1], child);
            frames := frames[depth - 1 := merged];
          } else if !IsEmpty(child) {
            return Fail(TypeError);
          }
        }
        depth := depth - 1;
        return Pass;
      } else {
        return Fail(DepthStep);
      }
    }

    /** Looks for the key from the current depth down to depth 0. */
    method Scan(k: Key) returns (hit: bool)
      requires Valid()
      ensures hit <==> Visible(Scopes(), k)
    {
      var d := depth;
      while d >= 0
        invariant d <= depth
        invariant forall e :: d < e <= depth && 0 <= e ==> !InFrame(frames[e], k)
        decreases d + 1
      {
        if InFrame(frames[d], k) {
          return true;
        }
        d := d - 1;
      }
      return false;
    }

    /** `buf.slice(i)` from the first non-zero byte. */
    method RemoveZeroBytes(input: seq<Byte>) returns (r: seq<Byte>)
      ensures r == StripLeadingZeros(input)
      ensures BytesValue(r) == BytesValue(input)
    {
      var i := 0;
      while i < |input|
        invariant 0 <= i <= |input|
        invariant StripLeadingZeros(input[i..]) == StripLeadingZeros(input)
      {
        if input[i] != 0 {
          break;
        }
        assert input[i..][1..] == input[i + 1..];
        i := i + 1;
      }
      r := input[i..];
      StripLeadingZerosValue(input);
    }

    /** The account branch of a download: nonce, balance and code from the memo or the
        node, then the account and its code written to the trie. */
    method DownloadAccount(address: string, block: int)
      requires block in memo
      modifies this
      ensures State() == LoadAccount(old(State()), remote, address, block)
    {
      var nonce := FetchNonce(memo[block], remote, address, block);
      var balance := FetchBalance(nonce.tables, remote, address, block);
      var code := FetchCode(balance.tables, remote, address, block);
      requests := requests + nonce.requests + balance.requests + code.requests;
      memo := memo[block := code.tables];
      trie := PutAccount(trie, address, nonce.value, balance.value, code.value);
    }

    /** The storage branch of a download: the word from the node, stripped of leading zero
        bytes, written to the trie under the padded slot. */
    method DownloadSlot(address: string, slot: string, block: int)
      requires block in memo
      modifies this
      ensures State() == LoadSlot(old(State()), remote, address, slot, block)
    {
      var f := FetchStorage(memo[block], remote, address, slot, block);
      var word := RemoveZeroBytes(HexDecode(Drop2(f.value)));
      requests := requests + f.requests;
      memo := memo[block := f.tables];
      trie := PutStorage(trie, address, slot, word);
    }

    /** One query; the new state is the one `Process` describes. */
    method ProcessQuery(q: Query) returns (outcome: QueryOutcome)
      requires Valid()
      modifies this
      ensures Valid()
      ensures State() == Process(old(State()), remote, q).state
      ensures outcome == Process(old(State()), remote, q).outcome
    {
      ghost var st := State();
      var key: Key;
      match q.op {
        case Unknown(_) =>
          assert Process(st, remote, q) == Processed(st, Failed(if depth >= 0 then TypeError else OperationNotFound));
          return Failed(if depth >= 0 then TypeError else OperationNotFound);
        case Storage =>
          if q.slot.None? {
            assert Process(st, remote, q) == Processed(st, Failed(TypeError));
            return Failed(TypeError);
          }
          key := SlotKey(ToLower(q.address), q.slot.value);
        case _ =>
          key := AccountKey(ToLower(q.address));
      }
      assert KeyOf(q) == Some(key);
      assert Process(st, remote, q) == Lookup(st, remote, q, key);
      var hit := Scan(key);
      if hit {
        return Hit;
      }
      if q.block !in memo {
        return Failed(CacheNotInitialized);
      }
      if q.op.Storage? {
        DownloadSlot(q.address, q.slot.value, q.block);
      } else {
        DownloadAccount(q.address, q.block);
      }
      assert Process(st, remote, q) == Record(State(), key);
      ProcessStoresRemote(st, remote, q);
      outcome := RecordKey(key);
    }

    /** Marks the key in the frame of the current depth, which throws when that frame is missing. */
    method RecordKey(k: Key) returns (outcome: QueryOutcome)
      requires WellFormed(Scopes())
      modifies this
      ensures State() == Record(old(State()), k).state && outcome == Record(old(State()), k).outcome
    {
      if depth !in frames {
        return Failed(TypeError);
      }
      frames := frames[depth := MarkFrame(frames[depth], k)];
      return Loaded;
    }

    /** A batch of queries; a failing query is ignored and the batch goes on. */
    method ProcessQueries(qs: seq<Query>)
      requires Valid()
      modifies this
      ensures Valid()
      ensures State() == ProcessAll(old(State()), remote, qs)
    {
      var i := 0;
      while i < |qs|
        invariant 0 <= i <= |qs|
        invariant Valid()
        invariant ProcessAll(State(), remote, qs[i..]) == ProcessAll(old(State()), remote, qs)
      {
        assert qs[i..][1..] == qs[i + 1..];
        var _ := ProcessQuery(qs[i]);
        i := i + 1;
      }
    }
  }
}
