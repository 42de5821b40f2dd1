/**
 * The tracer's stand-in for the virtual machine's blockchain: blocks downloaded from the
 * node are converted to the form the block library reads and kept by hash and by height,
 * so that the BLOCKHASH instruction can find its ancestors.
 */
module Blockchain {
  import opened Wrappers
  import opened Encoding

  // ---------------------------------------------------------------- blocks as the node reports them

  /** A transaction as the node reports it inside a block; `to` is absent for a creation. */
  datatype RpcTx = RpcTx(hash: string, from: string, to: Option<string>, nonce: nat, gas: nat, gasPrice: nat, value: nat)

  /** A block's transactions: only their hashes, or whole transactions. */
  datatype RpcTxList = TxHashes(hashes: seq<string>) | TxObjects(txs: seq<RpcTx>)

  datatype RpcBlock = RpcBlock(hash: string, number: nat, miner: string, difficulty: nat, transactions: RpcTxList)

  // ---------------------------------------------------------------- blocks as the block library reads them

  /** A transaction whose gas, gas price and value are hexadecimal quantities. */
  datatype StoredTx = StoredTx(hash: string, from: string, to: Option<string>, nonce: nat, gas: string, gasPrice: string, value: string)

  datatype StoredTxList = StoredHashes(hashes: seq<string>) | StoredObjects(txs: seq<StoredTx>)

  datatype StoredBlock = StoredBlock(hash: string, number: nat, miner: string, difficulty: string, transactions: StoredTxList)

  // ---------------------------------------------------------------- quantities

  /** The conversion as written: bn.js renders hexadecimal digits without a prefix, so the
      comparison with "0x0" and "0x00" never succeeds and zero becomes "0x0". */
  function NumToHexAsWritten(n: nat): string
  {
    var h := ToHex(n);
    if h == "0x0" || h == "0x00" then "0x" else "0x" + h
  }

  lemma NumToHexAsWrittenZero()
    ensures NumToHexAsWritten(0) == "0x0"
    ensures forall n: nat :: NumToHexAsWritten(n) == "0x" + ToHex(n)
  {
    forall n: nat ensures NumToHexAsWritten(n) == "0x" + ToHex(n) {
      var h := ToHex(n);
      assert h != "0x0" && h != "0x00" by {
        if |h| >= 2 {
          assert IsLowerHexChar(h[1]);
        }
      }
    }
  }

  /** The conversion as intended: "0x" and the minimal digits, and "0x" alone for zero. */
  function NumToHex(n: nat): (r: string)
    ensures HasHexPrefix(r)
  {
    var r := if n == 0 then "0x" else "0x" + ToHex(n);
    assert r[..2] == "0x";
    r
  }

  /** A converted quantity reads back as the number, has no leading zero digit, and is
      empty exactly for zero. */
  lemma NumToHexCanonical(n: nat)
    ensures IsLowerHex(Drop2(NumToHex(n))) && HexValue(Drop2(NumToHex(n))) == n
    ensures Drop2(NumToHex(n)) == [] <==> n == 0
    ensures Drop2(NumToHex(n)) != [] ==> Drop2(NumToHex(n))[0] != '0'
    ensures n != 0 ==> NumToHex(n) == NumToHexAsWritten(n)
  {
    NumToHexAsWrittenZero();
    if n != 0 {
      ToHexValue(n);
      ToHexZero(n);
      assert Drop2(NumToHex(n)) == ToHex(n);
    }
  }

  // ---------------------------------------------------------------- conversion

  function ConvertTx(tx: RpcTx): StoredTx
  {
    StoredTx(tx.hash, tx.from, tx.to, tx.nonce, NumToHex(tx.gas), NumToHex(tx.gasPrice), NumToHex(tx.value))
  }

  /** The block with every transaction's gas, gas price and value, and its difficulty, as
      hexadecimal quantities; a list of hashes is kept as it is. */
  function Converted(b: RpcBlock): StoredBlock
  {
    var txs := match b.transactions
      case TxHashes(hs) => StoredHashes(hs)
      case TxObjects(ts) => StoredObjects(seq(|ts|, i requires 0 <= i < |ts| => ConvertTx(ts[i])));
    StoredBlock(b.hash, b.number, b.miner, NumToHex(b.difficulty), txs)
  }

  /** Conversion changes only the quantities, and each one reads back as its number. */
  lemma ConvertedKeepsValues(b: RpcBlock)
    ensures var c := Converted(b);
      && c.hash == b.hash && c.number == b.number && c.miner == b.miner
      && HexValue(Drop2(c.difficulty)) == b.difficulty
      && (b.transactions.TxHashes? ==> c.transactions == StoredHashes(b.transactions.hashes))
      && (b.transactions.TxObjects? ==> c.transactions.StoredObjects? && |c.transactions.txs| == |b.transactions.txs|)
      && (b.transactions.TxObjects? ==> forall i :: 0 <= i < |b.transactions.txs| ==>
            var t, s := b.transactions.txs[i], c.transactions.txs[i];
            && s.hash == t.hash && s.from == t.from && s.to == t.to && s.nonce == t.nonce
            && HexValue(Drop2(s.gas)) == t.gas && HexValue(Drop2(s.gasPrice)) == t.gasPrice
            && HexValue(Drop2(s.value)) == t.value)
  {
    NumToHexCanonical(b.difficulty);
    if b.transactions.TxObjects? {
      var ts := b.transactions.txs;
      forall i | 0 <= i < |ts|
        ensures HexValue(Drop2(NumToHex(ts[i].gas))) == ts[i].gas
        ensures HexValue(Drop2(NumToHex(ts[i].gasPrice))) == ts[i].gasPrice
        ensures HexValue(Drop2(NumToHex(ts[i].value))) == ts[i].value
      {
        NumToHexCanonical(ts[i].gas);
        NumToHexCanonical(ts[i].gasPrice);
        NumToHexCanonical(ts[i].value);
      }
    }
  }

  /** Rewrites the quantities of a block, transaction by transaction. */
  method ConvertBlock(b: RpcBlock) returns (c: StoredBlock)
    ensures c == Converted(b)
  {
    var txs: StoredTxList;
    match b.transactions {
      case TxHashes(hs) =>
        txs := StoredHashes(hs);
      case TxObjects(ts) =>
        var converted: seq<StoredTx> := [];
        var i := 0;
        while i < |ts|
          invariant 0 <= i <= |ts|
          invariant converted == seq(i, j requires 0 <= j < i => ConvertTx(ts[j]))
        {
          converted := converted + [ConvertTx(ts[i])];
          i := i + 1;
        }
        txs := StoredObjects(converted);
    }
    c := StoredBlock(b.hash, b.number, b.miner, NumToHex(b.difficulty), txs);
  }

  // ---------------------------------------------------------------- the block index

  /** The key a height is stored under: an object key made from a number is its decimal text. */
  function NumberKey(n: nat): string
  {
    ToDecimal(n)
  }

  /** The index after storing a block: under its height unless it is an uncle, then under its hash. */
  function Indexed(blocks: map<string, StoredBlock>, b: RpcBlock, isUncle: bool): map<string, StoredBlock>
  {
    var byNumber := if isUncle then blocks else blocks[NumberKey(b.number) := Converted(b)];
    byNumber[b.hash := Converted(b)]
  }

  /** Storing a block writes its hash key, and its height key unless it is an uncle; every
      other key keeps its block. A "0x" hash never lands on a height key. */
  lemma IndexedKeys(blocks: map<string, StoredBlock>, b: RpcBlock, isUncle: bool)
    requires HasHexPrefix(b.hash)
    ensures var r := Indexed(blocks, b, isUncle);
      && r[b.hash] == Converted(b)
      && (!isUncle ==> NumberKey(b.number) in r && r[NumberKey(b.number)] == Converted(b))
      && (forall key :: key != b.hash && (isUncle || key != NumberKey(b.number)) ==>
            (key in r <==> key in blocks) && (key in r ==> r[key] == blocks[key]))
  {
    DecimalIsNotHex(NumberKey(b.number));
  }

  /** What the virtual machine asks for: a hash as bytes, a height as a big number, or
      anything else (which is never answered). */
  datatype BlockRef = ByHash(hash: seq<Byte>) | ByNumber(number: nat) | Other

  /** The callback's second argument, no callback at all, or a throw before the callback
      (a height too large for a number). */
  datatype Answer = NoCallback | Thrown | Answered(block: Option<StoredBlock>)

  function Find(blocks: map<string, StoredBlock>, key: string): Option<StoredBlock>
  {
    if key in blocks then Some(blocks[key]) else None
  }

  /** A hash is looked up as "0x" and its lower-case digits, a height as its decimal text;
      a height is first converted to a number, which throws from 2^53 on. */
  function LookupRef(blocks: map<string, StoredBlock>, ref: BlockRef): (r: Answer)
    ensures r.NoCallback? <==> ref.Other?
    ensures r.Thrown? <==> ref.ByNumber? && ref.number >= SafeNumberBound
  {
    match ref
    case ByHash(h) => Answered(Find(blocks, "0x" + HexEncode(h)))
    case ByNumber(n) => if n >= SafeNumberBound then Thrown else Answered(Find(blocks, NumberKey(n)))
    case Other => NoCallback
  }

  /** After a block is stored, it is found by its hash, and by its height unless it is an
      uncle; an uncle's height still finds what it found before. */
  lemma FindAfterIndexed(blocks: map<string, StoredBlock>, b: RpcBlock, isUncle: bool, h: seq<Byte>)
    requires b.hash == "0x" + HexEncode(h)
    ensures LookupRef(Indexed(blocks, b, isUncle), ByHash(h)) == Answered(Some(Converted(b)))
    ensures !isUncle && b.number < SafeNumberBound ==>
      LookupRef(Indexed(blocks, b, isUncle), ByNumber(b.number)) == Answered(Some(Converted(b)))
    ensures isUncle ==> LookupRef(Indexed(blocks, b, isUncle), ByNumber(b.number)) == LookupRef(blocks, ByNumber(b.number))
  {
    assert b.hash[..2] == "0x";
    IndexedKeys(blocks, b, isUncle);
    var key := NumberKey(b.number);
    DecimalIsNotHex(key);
    assert key != b.hash;
    var r := Indexed(blocks, b, isUncle);
    if isUncle {
      assert (key in r <==> key in blocks) && (key in r ==> r[key] == blocks[key]);
      assert Find(r, key) == Find(blocks, key);
    }
  }

  class Chain {
    var blocks: map<string, StoredBlock>

    constructor()
      ensures blocks == map[]
    {
      blocks := map[];
    }

    /** Stores a block under its height (unless it is an uncle) and under its hash. */
    method PutBlock(b: RpcBlock, isUncle: bool)
      modifies this
      ensures blocks == Indexed(old(blocks), b, isUncle)
    {
      var c := ConvertBlock(b);
      if !isUncle {
        blocks := blocks[NumberKey(b.number) := c];
      }
      blocks := blocks[b.hash := c];
    }

    /** Answers a lookup by hash or by height; any other reference gets no answer. */
    method GetBlock(ref: BlockRef) returns (r: Answer)
      ensures r.NoCallback? <==> ref.Other?
      ensures r.Thrown? <==> ref.ByNumber? && ref.number >= SafeNumberBound
      ensures ref.ByHash? ==> r.block == Find(blocks, "0x" + HexEncode(ref.hash))
      ensures ref.ByNumber? && ref.number < SafeNumberBound ==> r.block == Find(blocks, ToDecimal(ref.number))
    {
      if ref.ByHash? {
        var key := "0x" + HexEncode(ref.hash);
        r := Answered(if key in blocks then Some(blocks[key]) else None);
      } else if ref.ByNumber? {
        if ref.number >= SafeNumberBound {
          return Thrown;
        }
        var key := NumberKey(ref.number);
        r := Answered(if key in blocks then Some(blocks[key]) else None);
      } else {
        r := NoCallback;
      }
    }
  }
}
