/**
 What the gateway serves: blocks, transactions (with the gas used taken from
 their receipts), and the assumptions the follower makes about them.
 */
module Chain {
  import opened Common

  /** The text of a hash, of which the service only asks whether it is empty and whether two are the same. */
  datatype Hash = NoHash | Hash(id: nat)

  /** A transaction together with `GasUsed` of its receipt. */
  datatype Tx = Tx(from: string, to: string, value: int, input: string, gasPrice: int, gasUsed: int)

  /** A block with its transactions keyed by hash, as SyncOneBlock collects them. */
  datatype ChainBlock = ChainBlock(number: int, hash: Hash, parentHash: Hash, txs: map<Hash, Tx>)

  /** The two blocks SyncOneBlock fetches; `parent` is not fetched at height 0. */
  datatype Fetch = Fetch(block: ChainBlock, parent: ChainBlock)

  const MORTGAGE_CONTRACT := "0x0000000000000000000000000000000000000081"
  const FUNC_MORTGAGE := "0x43794dda"
  const FUNC_REDEEM := "0x1e9a6950"

  const TX_UNDEFINED := 0
  const TX_MORTGAGE := 3
  const TX_REDEEM := 4

  datatype TxType = TxType(kind: int, ext: string)

  /**
   The stored type of a transaction. `None` is the slice panic that the code
   runs into when a contract call carries fewer than 64 characters of input.
   */
  function CalcTransactionType(to: string, input: string): (r: Option<TxType>)
    ensures r.Some? ==> r.value.kind in {TX_UNDEFINED, TX_MORTGAGE, TX_REDEEM}
  {
    var called :=
      if to != MORTGAGE_CONTRACT then TX_UNDEFINED
      else if FUNC_MORTGAGE <= input then TX_MORTGAGE
      else if FUNC_REDEEM <= input then TX_REDEEM
      else TX_UNDEFINED;
    if called == TX_UNDEFINED then Some(TxType(TX_UNDEFINED, ""))
    else if |input| < 64 then None
    else Some(TxType(called, "0x" + input[|input| - 64..]))
  }

  /** The two contract functions tell the types apart; the extension is the last 64 characters of the input. */
  lemma TypeOf(to: string, input: string)
    ensures var r := CalcTransactionType(to, input);
      var contract := to == "0x0000000000000000000000000000000000000081";
      var mortgage, redeem := contract && "0x43794dda" <= input, contract && "0x1e9a6950" <= input;
      && !(mortgage && redeem)
      && (r.None? <==> (mortgage || redeem) && |input| < 64)
      && (r.Some? ==> r.value.kind == if mortgage then 3 else if redeem then 4 else 0)
      && (r.Some? && (mortgage || redeem) ==>
            |r.value.ext| == 66 && r.value.ext[..2] == "0x" && r.value.ext[2..] == input[|input| - 64..])
      && (r.Some? && !mortgage && !redeem ==> r.value.ext == "")
  {
    assert FUNC_MORTGAGE[2] == '4' && FUNC_REDEEM[2] == '1';
  }

  function Fee(tx: Tx): int {
    tx.gasPrice * tx.gasUsed
  }

  function Fees(txs: map<Hash, Tx>): map<Hash, int> {
    map t | t in txs :: Fee(txs[t])
  }

  /** The fees of a block, the sum over its transactions. */
  ghost function TotalFees(txs: map<Hash, Tx>): int {
    SumMap(Fees(txs))
  }

  /** A transaction and the height it is mined at. */
  datatype Home = Home(tx: Tx, number: int)

  /**
   Every block and transaction the gateway may ever serve in one run, on any
   branch. Keying by hash states that a hash determines a block's contents.
   `genesis` and `first` are the blocks at heights 0 and 1.
   */
  datatype Universe = Universe(blocks: map<Hash, ChainBlock>, txs: map<Hash, Home>, genesis: Hash, first: Hash)

  predicate Served(u: Universe, b: ChainBlock) {
    b.hash in u.blocks && u.blocks[b.hash] == b
  }

  /** Blocks carry their own hash and blocks 0 and 1 are the same on every branch. */
  ghost predicate BlocksConsistent(u: Universe) {
    && (forall k | k in u.blocks :: u.blocks[k].hash == k && u.blocks[k].number >= 0)
    && (forall k | k in u.blocks && u.blocks[k].number <= 1 ::
          k == if u.blocks[k].number == 0 then u.genesis else u.first)
  }

  /** A transaction hash has one height and one receipt, and blocks 0 and 1 carry no transactions. */
  ghost predicate TxsConsistent(u: Universe) {
    && (forall k, t | k in u.blocks && t in u.blocks[k].txs ::
          t in u.txs && u.txs[t] == Home(u.blocks[k].txs[t], u.blocks[k].number))
    && (forall k | k in u.blocks && u.blocks[k].number <= 1 :: u.blocks[k].txs == map[])
  }

  /** GetBlockByNumber returns a block with the number asked for, for the block and for its parent. */
  ghost predicate FetchServed(u: Universe, f: Fetch, h: int) {
    && Served(u, f.block)
    && f.block.number == h
    && (h > 0 ==> Served(u, f.parent) && f.parent.number == h - 1)
  }

  /** The two calls see one chain. */
  predicate OneView(f: Fetch) {
    f.block.number > 0 ==> f.block.parentHash == f.parent.hash
  }

  ghost predicate ValidFetch(u: Universe, f: Fetch, h: int) {
    FetchServed(u, f, h) && OneView(f)
  }

  /** A chain the gateway serves from height 0 up. */
  ghost predicate ValidChain(u: Universe, chain: seq<ChainBlock>) {
    && (forall i | 0 <= i < |chain| :: Served(u, chain[i]) && chain[i].number == i)
    && (forall i | 1 <= i < |chain| :: chain[i].parentHash == chain[i - 1].hash)
  }
}
