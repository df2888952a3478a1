/**
 The tables t_block and t_transaction and what the follower's writes do to
 them. Both have a unique key on the hash, so a table is a map from hash to row.
 */
module Tables {
  import opened Common
  import opened Chain
  import Decimal

  datatype Status = Normal | Fork

  /** F_txn and F_fees. */
  datatype Totals = Totals(txn: int, fees: string)

  datatype BlockRow = BlockRow(height: int, hash: Hash, parentHash: Hash, totals: Totals, status: Status)

  /** The columns of a transaction that are written once. */
  datatype TxData = TxData(from: string, to: string, value: string, fee: string, kind: int, ext: string)

  datatype TxRow = TxRow(height: int, hash: Hash, data: TxData, status: Status)

  datatype Store = Store(blocks: map<Hash, BlockRow>, txs: map<Hash, TxRow>)

  /*--- Queries ---*/

  predicate IsNormal(s: Store, k: Hash, h: int) {
    k in s.blocks && s.blocks[k].status == Normal && s.blocks[k].height == h
  }

  /** FindBlockByHeight: some NORMAL row at height `h`. */
  ghost function At(s: Store, h: int): (r: Option<Hash>)
    ensures r.Some? ==> IsNormal(s, r.value, h)
    ensures r.None? ==> forall k :: !IsNormal(s, k, h)
  {
    if exists k :: IsNormal(s, k, h) then
      var k :| IsNormal(s, k, h);
      Some(k)
    else None
  }

  predicate IsNormalTx(s: Store, t: Hash, h: int) {
    t in s.txs && s.txs[t].status == Normal && s.txs[t].height == h
  }

  /** FindTrasactionByHeight: the NORMAL transaction rows at height `h`. */
  function NormalTxs(s: Store, h: int): set<Hash> {
    set t | t in s.txs && IsNormalTx(s, t, h)
  }

  /*--- Rows the follower creates ---*/

  ghost function NewTotals(txs: map<Hash, Tx>): Totals {
    Totals(|txs|, Decimal.Print(TotalFees(txs)))
  }

  /** A block without transactions has no fees; one with a single transaction has that one's. */
  lemma SmallTotals(txs: map<Hash, Tx>)
    ensures txs == map[] ==> NewTotals(txs) == Totals(0, "0")
    ensures forall t | txs.Keys == {t} ::
      NewTotals(txs) == Totals(1, Decimal.Print(txs[t].gasPrice * txs[t].gasUsed))
  {
    if txs == map[] {
      assert Fees(txs) == map[];
      SumMapUnion(Fees(txs), Fees(txs));
      assert Fees(txs) + Fees(txs) == Fees(txs);
      Decimal.PrintExact(0, "0");
    }
    forall t | txs.Keys == {t} ensures NewTotals(txs) == Totals(1, Decimal.Print(txs[t].gasPrice * txs[t].gasUsed)) {
      assert Fees(txs) == map[t := Fee(txs[t])];
      SumMapOne(t, Fee(txs[t]));
      assert |txs| == |txs.Keys| == 1;
    }
  }

  ghost function NewBlockRow(b: ChainBlock): BlockRow {
    BlockRow(b.number, b.hash, b.parentHash, NewTotals(b.txs), Normal)
  }

  /** The type of the transaction can be worked out without a panic. */
  predicate Typed(tx: Tx) {
    CalcTransactionType(tx.to, tx.input).Some?
  }

  function NewTxData(tx: Tx): TxData
    requires Typed(tx)
  {
    var ty := CalcTransactionType(tx.to, tx.input).value;
    TxData(tx.from, tx.to, Decimal.Print(tx.value), Decimal.Print(Fee(tx)), ty.kind, ty.ext)
  }

  function NewTxRow(t: Hash, tx: Tx, number: int): TxRow
    requires Typed(tx)
  {
    TxRow(number, t, NewTxData(tx), Normal)
  }

  /*--- DropBlok ---*/

  /**
   What goes wrong during one DropBlok: `blockFails`, reading or updating the
   block row fails; `blockLost`, its COMMIT fails, which the code does not
   notice; `lost`, the transaction rows whose status update did not happen (its
   error is ignored); `dies`, the call ends before returning.
   */
  datatype DropIO = DropIO(blockFails: bool, blockLost: bool, lost: set<Hash>, dies: bool)

  const CleanDrop := DropIO(false, false, {}, false)

  /** A DropBlok that starts changing rows saves every change; it may still die before returning. */
  predicate Finishes(io: DropIO) {
    io.lost == {} && !io.blockLost
  }

  function RetireTxs(txs: map<Hash, TxRow>, h: int, lost: set<Hash>): map<Hash, TxRow> {
    map t | t in txs ::
      if txs[t].status == Normal && txs[t].height == h && t !in lost then txs[t].(status := Fork) else txs[t]
  }

  function RetireBlock(blocks: map<Hash, BlockRow>, k: Hash, lost: bool): map<Hash, BlockRow>
    requires k in blocks
  {
    if lost then blocks else blocks[k := blocks[k].(status := Fork)]
  }

  datatype Dropped = Dropped(store: Store, ok: bool)

  ghost function Drop(s: Store, h: int, io: DropIO): Dropped {
    if h <= 1 then Dropped(s, true)
    else if io.blockFails then Dropped(s, false)
    else
      match At(s, h)
      case None => Dropped(s, true)
      case Some(k) =>
        Dropped(Store(RetireBlock(s.blocks, k, io.blockLost), RetireTxs(s.txs, h, io.lost)), !io.dies)
  }

  /*--- WriteBlock ---*/

  /** A row exists to revive, or the new row passes CreateBlock's assertions. */
  predicate BlockWritable(s: Store, b: ChainBlock) {
    b.hash in s.blocks || (b.hash != NoHash && b.parentHash != NoHash)
  }

  ghost function PutBlock(s: Store, b: ChainBlock): Store {
    s.(blocks := s.blocks[b.hash :=
      if b.hash in s.blocks then s.blocks[b.hash].(status := Normal) else NewBlockRow(b)])
  }

  /** WriteBlock that got through; `lost`, the COMMIT of a revival failed unnoticed. */
  ghost function SaveBlock(s: Store, b: ChainBlock, lost: bool): Store {
    if lost && b.hash in s.blocks then s else PutBlock(s, b)
  }

  /*--- WriteTransactions ---*/

  /** No UNIQUE-key violation: the hash has no row, or a row that is revived instead of inserted. */
  predicate NoClash(s: Store, t: Hash) {
    t in s.txs ==> s.txs[t].status == Fork
  }

  /** The row can be written: revived, or inserted without a clash, an empty hash or a type panic. */
  predicate TxWritable(s: Store, t: Hash, tx: Tx) {
    && NoClash(s, t)
    && (t !in s.txs ==> t != NoHash && Typed(tx))
  }

  predicate AllWritable(s: Store, b: ChainBlock) {
    forall t | t in b.txs :: TxWritable(s, t, b.txs[t])
  }

  /** The row WriteTransactions leaves for a writable transaction. */
  function WrittenRow(s: Store, b: ChainBlock, t: Hash): TxRow
    requires t in b.txs && TxWritable(s, t, b.txs[t])
  {
    if t in s.txs then s.txs[t].(status := Normal) else NewTxRow(t, b.txs[t], b.number)
  }

  function WrittenRows(s: Store, b: ChainBlock, reached: set<Hash>): map<Hash, TxRow> {
    map t | t in b.txs && t in reached && TxWritable(s, t, b.txs[t]) :: WrittenRow(s, b, t)
  }

  /** WriteTransactions, when only the transactions in `reached` are got to before something stops it. */
  function PutTxs(s: Store, b: ChainBlock, reached: set<Hash>): Store {
    s.(txs := s.txs + WrittenRows(s, b, reached))
  }

  /** The transactions got to whose write was saved: an insert always is, a revival unless its COMMIT is lost. */
  function Saved(s: Store, reached: set<Hash>, lost: set<Hash>): set<Hash> {
    set t | t in reached && (t in s.txs ==> t !in lost)
  }

  /*--- Invariants of the tables ---*/

  predicate RowMatches(row: BlockRow, b: ChainBlock) {
    row.height == b.number && row.hash == b.hash && row.parentHash == b.parentHash
  }

  predicate RowServed(row: BlockRow, u: Universe, k: Hash) {
    k in u.blocks && RowMatches(row, u.blocks[k])
  }

  /** Every block row is a block the gateway served. */
  ghost predicate RowsServed(s: Store, u: Universe) {
    forall k | k in s.blocks :: RowServed(s.blocks[k], u, k)
  }

  /** No height has two NORMAL block rows. */
  ghost predicate Unique(s: Store) {
    forall j, k, h :: IsNormal(s, j, h) && IsNormal(s, k, h) ==> j == k
  }

  ghost predicate StoreInv(s: Store, u: Universe) {
    RowsServed(s, u) && Unique(s)
  }

  /** The text is the decimal form of some integer. */
  ghost predicate Amount(s: string) {
    exists n :: s == Decimal.Print(n)
  }

  /** The stored fee is an amount and the stored type is one of the three the syncer computes. */
  ghost predicate ColumnsSound(data: TxData) {
    Amount(data.fee) && data.kind in {TX_UNDEFINED, TX_MORTGAGE, TX_REDEEM}
  }

  ghost predicate TxColumnsSound(s: Store) {
    forall t | t in s.txs :: ColumnsSound(s.txs[t].data)
  }

  /*--- What the writes keep and change ---*/

  lemma AtIs(s: Store, k: Hash, h: int)
    requires Unique(s) && IsNormal(s, k, h)
    ensures At(s, h) == Some(k)
  {}

  /** Two tables agree on the NORMAL row at a height when they agree on which keys are NORMAL there. */
  lemma AtSame(s: Store, s': Store, h: int)
    requires Unique(s) && forall k :: IsNormal(s, k, h) <==> IsNormal(s', k, h)
    ensures At(s', h) == At(s, h)
  {
    if At(s, h).Some? {
      assert IsNormal(s', At(s, h).value, h);
      assert IsNormal(s, At(s', h).value, h);
    }
  }

  lemma DropServed(s: Store, u: Universe, h: int, io: DropIO)
    requires RowsServed(s, u)
    ensures RowsServed(Drop(s, h, io).store, u)
  {}

  lemma DropKeeps(s: Store, u: Universe, h: int, io: DropIO)
    requires StoreInv(s, u)
    ensures StoreInv(Drop(s, h, io).store, u)
  {
    var s' := Drop(s, h, io).store;
    assert RowsServed(s', u) by { DropServed(s, u, h, io); }
    assert forall j, i :: IsNormal(s', j, i) ==> IsNormal(s, j, i);
  }

  /** DropBlok retires rows, it never makes one NORMAL. */
  lemma DropNormal(s: Store, h: int, io: DropIO, k: Hash, j: int)
    ensures IsNormal(Drop(s, h, io).store, k, j) ==> IsNormal(s, k, j)
    ensures j != h ==> (IsNormal(Drop(s, h, io).store, k, j) <==> IsNormal(s, k, j))
  {}

  /**
   DropBlok clears height `h` if it returns normally and its update is saved,
   and touches the NORMAL row of no other height.
   */
  lemma DropAt(s: Store, u: Universe, h: int, io: DropIO, j: int)
    requires StoreInv(s, u)
    ensures j != h ==> At(Drop(s, h, io).store, j) == At(s, j)
    ensures h > 1 && Drop(s, h, io).ok && !io.blockLost ==> At(Drop(s, h, io).store, h).None?
    ensures h <= 1 ==> Drop(s, h, io).store == s
    ensures At(Drop(s, h, io).store, h).None? || At(Drop(s, h, io).store, h) == At(s, h)
  {
    var s' := Drop(s, h, io).store;
    forall k ensures IsNormal(s', k, h) ==> IsNormal(s, k, h)
      ensures j != h ==> (IsNormal(s', k, j) <==> IsNormal(s, k, j))
    {
      DropNormal(s, h, io, k, h);
      DropNormal(s, h, io, k, j);
    }
    if j != h { AtSame(s, s', j); }
  }

  lemma DropOthers(s: Store, u: Universe, h: int, io: DropIO)
    requires StoreInv(s, u)
    ensures forall j :: At(Drop(s, h, io).store, j) == At(s, j) || At(Drop(s, h, io).store, j).None?
    ensures forall j :: j != h ==> At(Drop(s, h, io).store, j) == At(s, j)
  {
    forall j ensures At(Drop(s, h, io).store, j) == At(s, j) || At(Drop(s, h, io).store, j).None?
      ensures j != h ==> At(Drop(s, h, io).store, j) == At(s, j)
    {
      DropAt(s, u, h, io, j);
    }
  }

  /** At heights 0 and 1 the only row there can be is the block every branch agrees on. */
  lemma FinalRow(s: Store, u: Universe, b: ChainBlock)
    requires StoreInv(s, u) && BlocksConsistent(u) && Served(u, b) && b.number <= 1
    ensures At(s, b.number).Some? ==> At(s, b.number) == Some(b.hash)
  {}

  /** Writing block `b` over a height that has no other NORMAL row keeps the table invariants. */
  lemma PutKeeps(s: Store, u: Universe, b: ChainBlock)
    requires StoreInv(s, u) && BlocksConsistent(u) && Served(u, b)
    requires At(s, b.number).None? || At(s, b.number) == Some(b.hash)
    ensures StoreInv(PutBlock(s, b), u)
    ensures At(PutBlock(s, b), b.number) == Some(b.hash)
  {
    var s' := PutBlock(s, b);
    assert IsNormal(s', b.hash, b.number);
    assert forall k, i :: IsNormal(s', k, i) ==> (k == b.hash && i == b.number) || IsNormal(s, k, i);
    assert forall k :: IsNormal(s, k, b.number) ==> At(s, b.number).Some?;
    assert forall k :: IsNormal(s', k, b.number) ==> k == b.hash;
    assert Unique(s');
    AtIs(s', b.hash, b.number);
  }

  lemma PutAt(s: Store, u: Universe, b: ChainBlock, j: int)
    requires StoreInv(s, u) && BlocksConsistent(u) && Served(u, b) && j != b.number
    ensures At(PutBlock(s, b), j) == At(s, j)
  {
    var s' := PutBlock(s, b);
    assert forall k :: IsNormal(s, k, j) <==> IsNormal(s', k, j);
    AtSame(s, s', j);
  }

  lemma PutTxsKeeps(s: Store, u: Universe, b: ChainBlock, reached: set<Hash>)
    requires StoreInv(s, u)
    ensures StoreInv(PutTxs(s, b, reached), u)
    ensures PutTxs(s, b, reached).blocks == s.blocks
  {
    var s' := PutTxs(s, b, reached);
    assert forall k, h :: IsNormal(s', k, h) <==> IsNormal(s, k, h);
  }

  lemma PutTxsNone(s: Store, b: ChainBlock)
    ensures PutTxs(s, b, {}) == s
  {
    assert WrittenRows(s, b, {}) == map[];
  }

  /*--- Columns ---*/

  lemma NewDataSound(tx: Tx)
    requires Typed(tx)
    ensures ColumnsSound(NewTxData(tx))
  {}

  lemma AmountParses(s: string)
    requires Amount(s)
    ensures Decimal.Parse(s).Some?
  {
    var n :| s == Decimal.Print(n);
    Decimal.ParsePrint(n);
  }

  lemma DropColumns(s: Store, h: int, io: DropIO)
    requires TxColumnsSound(s)
    ensures TxColumnsSound(Drop(s, h, io).store)
  {}

  /** Every fee ever written is an amount, and every type written is known. */
  lemma PutTxsColumns(s: Store, b: ChainBlock, reached: set<Hash>)
    requires TxColumnsSound(s)
    ensures TxColumnsSound(PutTxs(s, b, reached))
  {
    forall t | t in b.txs && Typed(b.txs[t]) ensures ColumnsSound(NewTxData(b.txs[t])) {
      NewDataSound(b.txs[t]);
    }
  }
}
