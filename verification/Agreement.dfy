/**
 Agreement of the two tables: the NORMAL transaction rows are exactly the
 transactions of the NORMAL blocks, and fees add up across the tables.
 */
module Agreement {
  import opened Common
  import opened Chain
  import opened Tables
  import opened Follower
  import opened Restarts
  import opened Runs
  import Decimal

  ghost predicate Consistent(u: Universe) {
    BlocksConsistent(u) && TxsConsistent(u)
  }

  /*--- What every run whatsoever keeps ---*/

  /** Every transaction row sits at the height where its transaction is mined. */
  ghost predicate Homed(s: Store, u: Universe) {
    forall t | t in s.txs :: t in u.txs && s.txs[t].height == u.txs[t].number
  }

  /** The row holds what the chain says about its hash. */
  ghost predicate DataServed(row: TxRow, u: Universe, t: Hash) {
    t in u.txs && Typed(u.txs[t].tx) && row.hash == t && row.data == NewTxData(u.txs[t].tx)
  }

  ghost predicate TxRowsServed(s: Store, u: Universe) {
    forall t | t in s.txs :: DataServed(s.txs[t], u, t)
  }

  /** Block rows carry the transaction count of their block. */
  ghost predicate CountsExact(s: Store, u: Universe) {
    forall k | k in s.blocks && k in u.blocks :: s.blocks[k].totals.txn == |u.blocks[k].txs|
  }

  /** Block rows carry the fee sum of their block. */
  ghost predicate FeesExact(s: Store, u: Universe) {
    forall k | k in s.blocks && k in u.blocks :: s.blocks[k].totals.fees == Decimal.Print(TotalFees(u.blocks[k].txs))
  }

  /** Heights and counts are a faithful record of the chain, whatever the status of the rows. */
  ghost predicate Booked(s: Store, u: Universe) {
    Homed(s, u) && CountsExact(s, u)
  }

  /** So are the contents of the rows. */
  ghost predicate Priced(s: Store, u: Universe) {
    TxRowsServed(s, u) && FeesExact(s, u)
  }

  lemma DropHomed(s: Store, u: Universe, h: int, io: DropIO)
    requires Homed(s, u)
    ensures Homed(Drop(s, h, io).store, u)
  {}

  lemma DropTxRows(s: Store, u: Universe, h: int, io: DropIO)
    requires TxRowsServed(s, u)
    ensures TxRowsServed(Drop(s, h, io).store, u)
  {}

  lemma DropCounts(s: Store, u: Universe, h: int, io: DropIO)
    requires CountsExact(s, u)
    ensures CountsExact(Drop(s, h, io).store, u)
  {}

  lemma DropFees(s: Store, u: Universe, h: int, io: DropIO)
    requires FeesExact(s, u)
    ensures FeesExact(Drop(s, h, io).store, u)
  {}

  lemma HomeIs(u: Universe, b: ChainBlock, t: Hash)
    requires TxsConsistent(u) && Served(u, b) && t in b.txs
    ensures t in u.txs && u.txs[t] == Home(b.txs[t], b.number)
  {}

  lemma PutHomed(s: Store, u: Universe, b: ChainBlock, reached: set<Hash>)
    requires Homed(s, u) && TxsConsistent(u) && Served(u, b)
    ensures Homed(PutTxs(s, b, reached), u)
  {
    forall t | t in b.txs ensures t in u.txs && u.txs[t] == Home(b.txs[t], b.number) {
      HomeIs(u, b, t);
    }
  }

  lemma PutTxRows(s: Store, u: Universe, b: ChainBlock, reached: set<Hash>)
    requires TxRowsServed(s, u) && TxsConsistent(u) && Served(u, b)
    ensures TxRowsServed(PutTxs(s, b, reached), u)
  {
    forall t | t in b.txs ensures t in u.txs && u.txs[t] == Home(b.txs[t], b.number) {
      HomeIs(u, b, t);
    }
  }

  lemma SaveCounts(s: Store, u: Universe, b: ChainBlock, lost: bool)
    requires CountsExact(s, u) && Served(u, b)
    ensures CountsExact(SaveBlock(s, b, lost), u)
  {}

  lemma SaveFees(s: Store, u: Universe, b: ChainBlock, lost: bool)
    requires FeesExact(s, u) && Served(u, b)
    ensures FeesExact(SaveBlock(s, b, lost), u)
  {}

  lemma SyncHomed(s: Store, u: Universe, f: Fetch, h: int, io: SyncIO)
    requires Homed(s, u) && TxsConsistent(u) && Answered(u, f, h, io)
    ensures Homed(Outcome(s, f, h, io).store, u)
  {
    OutcomeIs(s, f, h, io);
    DropHomed(s, u, h, io.drop);
    if Writes(s, f, h, io) {
      var s2 := SaveBlock(Drop(s, h, io.drop).store, f.block, io.blockLost);
      PutHomed(s2, u, f.block, Saved(s2, io.reached, io.lost));
    }
  }

  lemma SyncTxRows(s: Store, u: Universe, f: Fetch, h: int, io: SyncIO)
    requires TxRowsServed(s, u) && TxsConsistent(u) && Answered(u, f, h, io)
    ensures TxRowsServed(Outcome(s, f, h, io).store, u)
  {
    OutcomeIs(s, f, h, io);
    DropTxRows(s, u, h, io.drop);
    if Writes(s, f, h, io) {
      var s2 := SaveBlock(Drop(s, h, io.drop).store, f.block, io.blockLost);
      PutTxRows(s2, u, f.block, Saved(s2, io.reached, io.lost));
    }
  }

  lemma SyncCounts(s: Store, u: Universe, f: Fetch, h: int, io: SyncIO)
    requires CountsExact(s, u) && Answered(u, f, h, io)
    ensures CountsExact(Outcome(s, f, h, io).store, u)
  {
    OutcomeIs(s, f, h, io);
    DropCounts(s, u, h, io.drop);
    if Writes(s, f, h, io) {
      SaveCounts(Drop(s, h, io.drop).store, u, f.block, io.blockLost);
    }
  }

  lemma SyncFees(s: Store, u: Universe, f: Fetch, h: int, io: SyncIO)
    requires FeesExact(s, u) && Answered(u, f, h, io)
    ensures FeesExact(Outcome(s, f, h, io).store, u)
  {
    OutcomeIs(s, f, h, io);
    DropFees(s, u, h, io.drop);
    if Writes(s, f, h, io) {
      SaveFees(Drop(s, h, io.drop).store, u, f.block, io.blockLost);
    }
  }

  lemma BookedStep(st: State, step: Step, u: Universe)
    requires Booked(st.store, u) && TxsConsistent(u) && Enabled(st, step, u)
    ensures Booked(Next(st, step).store, u)
  {
    if step.Poll? {
      DropHomed(st.store, u, st.cursor - 1, step.drop);
      DropCounts(st.store, u, st.cursor - 1, step.drop);
    } else if step.Sync? {
      SyncHomed(st.store, u, step.fetch, st.cursor + 1, step.io);
      SyncCounts(st.store, u, step.fetch, st.cursor + 1, step.io);
    }
  }

  lemma {:induction false} BookedRun(st: State, trace: seq<Step>, u: Universe)
    requires Booked(st.store, u) && TxsConsistent(u) && ValidRun(st, trace, u)
    ensures Booked(Run(st, trace).store, u)
    decreases |trace|
  {
    if trace != [] {
      BookedStep(st, trace[0], u);
      BookedRun(Next(st, trace[0]), trace[1..], u);
    }
  }

  lemma {:induction false} PricedRun(st: State, trace: seq<Step>, u: Universe)
    requires Priced(st.store, u) && TxsConsistent(u) && ValidRun(st, trace, u)
    ensures Priced(Run(st, trace).store, u)
    decreases |trace|
  {
    if trace != [] {
      var step := trace[0];
      if step.Poll? {
        DropTxRows(st.store, u, st.cursor - 1, step.drop);
        DropFees(st.store, u, st.cursor - 1, step.drop);
      } else if step.Sync? {
        SyncTxRows(st.store, u, step.fetch, st.cursor + 1, step.io);
        SyncFees(st.store, u, step.fetch, st.cursor + 1, step.io);
      }
      PricedRun(Next(st, step), trace[1..], u);
    }
  }

  /**
   In every run whatsoever, every transaction row, NORMAL or FORK, says about
   its hash what the chain says: height, parties, value, fee and type.
   */
  lemma StoredRowFaithful(trace: seq<Step>, u: Universe, t: Hash)
    requires TxsConsistent(u) && ValidRun(Fresh, trace, u) && t in Run(Fresh, trace).store.txs
    ensures var row := Run(Fresh, trace).store.txs[t];
      && t in u.txs && row.hash == t && row.height == u.txs[t].number
      && row.data.from == u.txs[t].tx.from && row.data.to == u.txs[t].tx.to
      && Decimal.Parse(row.data.value) == Some(u.txs[t].tx.value)
      && Decimal.Parse(row.data.fee) == Some(u.txs[t].tx.gasPrice * u.txs[t].tx.gasUsed)
      && CalcTransactionType(row.data.to, u.txs[t].tx.input) == Some(TxType(row.data.kind, row.data.ext))
  {
    BookedRun(Fresh, trace, u);
    PricedRun(Fresh, trace, u);
    DataFaithful(u.txs[t].tx);
  }

  lemma DataFaithful(tx: Tx)
    requires Typed(tx)
    ensures var data := NewTxData(tx);
      && data.from == tx.from && data.to == tx.to
      && Decimal.Parse(data.value) == Some(tx.value) && Decimal.Parse(data.fee) == Some(tx.gasPrice * tx.gasUsed)
      && CalcTransactionType(data.to, tx.input) == Some(TxType(data.kind, data.ext))
  {
    Decimal.ParsePrint(tx.value);
    Decimal.ParsePrint(Fee(tx));
  }

  /*--- Invariants ---*/

  /** `t` is a transaction of the NORMAL block at height `h`. */
  ghost predicate InNormalBlock(s: Store, u: Universe, t: Hash, h: int) {
    At(s, h).Some? && At(s, h).value in u.blocks && t in u.blocks[At(s, h).value].txs
  }

  /** Every NORMAL transaction row belongs to the NORMAL block at its height. */
  ghost predicate Owned(s: Store, u: Universe) {
    forall t, h :: IsNormalTx(s, t, h) ==> InNormalBlock(s, u, t, h)
  }

  ghost predicate TxInv(s: Store, u: Universe) {
    StoreInv(s, u) && Homed(s, u) && Owned(s, u)
  }

  /** Every transaction of the NORMAL block at `h` has its NORMAL row there. */
  ghost predicate CompleteAt(s: Store, u: Universe, h: int) {
    forall t :: InNormalBlock(s, u, t, h) ==> IsNormalTx(s, t, h)
  }

  ghost predicate Complete(s: Store, u: Universe, c: int) {
    forall h :: h <= c ==> CompleteAt(s, u, h)
  }

  /** What holds in all runs; only completeness depends on the cursor. */
  ghost predicate Sound(st: State, u: Universe) {
    Loose(st, u) && TxInv(st.store, u)
  }

  ghost predicate Agree(st: State, u: Universe) {
    Sound(st, u) && Complete(st.store, u, st.cursor)
  }

  /*--- DropBlok ---*/

  lemma DropNormalTx(s: Store, h: int, io: DropIO, t: Hash, j: int)
    requires Finishes(io)
    ensures IsNormalTx(Drop(s, h, io).store, t, j) <==>
      IsNormalTx(s, t, j) && !(j == h && h > 1 && !io.blockFails && At(s, h).Some?)
  {}

  /** A DropBlok that saves its changes retires block and transactions together. */
  lemma DropOwned(s: Store, u: Universe, h: int, io: DropIO)
    requires TxInv(s, u) && Consistent(u) && Finishes(io)
    ensures Owned(Drop(s, h, io).store, u)
    ensures Drop(s, h, io).ok ==> forall t :: !IsNormalTx(Drop(s, h, io).store, t, h)
  {
    var s' := Drop(s, h, io).store;
    forall t, j | IsNormalTx(s', t, j) ensures InNormalBlock(s', u, t, j) && (Drop(s, h, io).ok ==> j != h) {
      DropNormalTx(s, h, io, t, j);
      assert InNormalBlock(s, u, t, j);
      DropAt(s, u, h, io, j);
    }
  }

  /** DropBlok takes the block away with its transactions, so no height becomes incomplete. */
  lemma DropComplete(s: Store, u: Universe, h: int, io: DropIO, j: int)
    requires TxInv(s, u) && CompleteAt(s, u, j) && Finishes(io)
    ensures CompleteAt(Drop(s, h, io).store, u, j)
  {
    var s' := Drop(s, h, io).store;
    DropAt(s, u, h, io, j);
    forall t | InNormalBlock(s', u, t, j) ensures IsNormalTx(s', t, j) {
      assert InNormalBlock(s, u, t, j);
      DropNormalTx(s, h, io, t, j);
    }
  }

  lemma DropAllComplete(s: Store, u: Universe, h: int, io: DropIO, c: int)
    requires TxInv(s, u) && Complete(s, u, c) && Finishes(io)
    ensures Complete(Drop(s, h, io).store, u, c)
  {
    var s' := Drop(s, h, io).store;
    forall j | j <= c ensures CompleteAt(s', u, j) {
      DropComplete(s, u, h, io, j);
    }
  }

  lemma DropTxInv(s: Store, u: Universe, h: int, io: DropIO)
    requires TxInv(s, u) && Consistent(u) && Finishes(io)
    ensures TxInv(Drop(s, h, io).store, u)
  {
    var s' := Drop(s, h, io).store;
    assert StoreInv(s', u) by { DropKeeps(s, u, h, io); }
    assert Homed(s', u) by { DropHomed(s, u, h, io); }
    assert Owned(s', u) by { DropOwned(s, u, h, io); }
  }

  /*--- WriteBlock and WriteTransactions ---*/

  /** WriteBlock over a cleared height leaves the new block without transactions yet. */
  lemma PutOwned(s: Store, u: Universe, b: ChainBlock)
    requires TxInv(s, u) && Consistent(u) && Served(u, b)
    requires At(s, b.number).None? || At(s, b.number) == Some(b.hash)
    requires forall t :: !IsNormalTx(s, t, b.number)
    ensures TxInv(PutBlock(s, b), u) && At(PutBlock(s, b), b.number) == Some(b.hash)
    ensures forall t :: !IsNormalTx(PutBlock(s, b), t, b.number)
  {
    var s' := PutBlock(s, b);
    PutKeeps(s, u, b);
    forall t, j ensures IsNormalTx(s', t, j) <==> IsNormalTx(s, t, j) {}
    forall t, j | IsNormalTx(s', t, j) ensures InNormalBlock(s', u, t, j) {
      assert InNormalBlock(s, u, t, j);
      PutAt(s, u, b, j);
    }
  }

  /** What WriteTransactions would insert has no row yet; what has a row is revived. */
  lemma NoClashAt(s: Store, u: Universe, b: ChainBlock, t: Hash)
    requires Homed(s, u) && TxsConsistent(u) && Served(u, b) && t in b.txs
    requires forall x :: !IsNormalTx(s, x, b.number)
    ensures NoClash(s, t)
  {
    if t in s.txs {
      HomeIs(u, b, t);
      assert !IsNormalTx(s, t, b.number);
    }
  }

  predicate Written(s: Store, b: ChainBlock, reached: set<Hash>, t: Hash) {
    t in b.txs && t in reached && TxWritable(s, t, b.txs[t])
  }

  /** Which transactions are NORMAL after WriteTransactions: those that were, and those written. */
  lemma PutTxsNormal(s: Store, u: Universe, b: ChainBlock, reached: set<Hash>, t: Hash, j: int)
    requires Homed(s, u) && TxsConsistent(u) && Served(u, b)
    ensures IsNormalTx(PutTxs(s, b, reached), t, j) <==>
      if Written(s, b, reached, t) then j == b.number else IsNormalTx(s, t, j)
  {
    if Written(s, b, reached, t) {
      HomeIs(u, b, t);
    }
  }

  lemma PutTxsOwned(s: Store, u: Universe, b: ChainBlock, reached: set<Hash>)
    requires TxInv(s, u) && Consistent(u) && Served(u, b) && At(s, b.number) == Some(b.hash)
    ensures TxInv(PutTxs(s, b, reached), u)
  {
    var s' := PutTxs(s, b, reached);
    PutTxsKeeps(s, u, b, reached);
    PutHomed(s, u, b, reached);
    forall t, j | IsNormalTx(s', t, j) ensures InNormalBlock(s', u, t, j) {
      PutTxsNormal(s, u, b, reached, t, j);
      SameBlocks(s, s', j);
      assert Written(s, b, reached, t) || InNormalBlock(s, u, t, j);
    }
  }

  /** When every transaction is written, height `b.number` is complete. */
  lemma PutTxsFull(s: Store, u: Universe, b: ChainBlock, reached: set<Hash>)
    requires TxInv(s, u) && Consistent(u) && Served(u, b) && At(s, b.number) == Some(b.hash)
    requires AllWritable(s, b) && b.txs.Keys <= reached
    ensures CompleteAt(PutTxs(s, b, reached), u, b.number)
  {
    var s' := PutTxs(s, b, reached);
    SameBlocks(s, s', b.number);
    forall t | InNormalBlock(s', u, t, b.number) ensures IsNormalTx(s', t, b.number) {
      assert Written(s, b, reached, t);
      PutTxsNormal(s, u, b, reached, t, b.number);
    }
  }

  /*--- SyncOneBlock ---*/

  /** The tables WriteTransactions starts from: height `h` cleared, the new block NORMAL, none of its rows yet. */
  lemma ReadyToWrite(s: Store, u: Universe, f: Fetch, h: int, io: SyncIO)
    requires TxInv(s, u) && Consistent(u) && FetchServed(u, f, h) && h >= 0 && Finishes(io.drop)
    requires Drop(s, h, io.drop).ok
    ensures var s2 := PutBlock(Drop(s, h, io.drop).store, f.block);
      TxInv(s2, u) && At(s2, h) == Some(f.block.hash) && forall t :: !IsNormalTx(s2, t, h)
  {
    var s1 := Drop(s, h, io.drop).store;
    DropTxInv(s, u, h, io.drop);
    DropOwned(s, u, h, io.drop);
    DropReady(s, u, f, h, io.drop);
    PutOwned(s1, u, f.block);
  }

  lemma SyncTxInv(s: Store, u: Universe, f: Fetch, h: int, io: SyncIO)
    requires TxInv(s, u) && Consistent(u) && Answered(u, f, h, io) && h >= 0 && Finishes(io.drop) && !io.blockLost
    ensures TxInv(Outcome(s, f, h, io).store, u)
  {
    OutcomeIs(s, f, h, io);
    if Writes(s, f, h, io) {
      var s2 := PutBlock(Drop(s, h, io.drop).store, f.block);
      ReadyToWrite(s, u, f, h, io);
      PutTxsOwned(s2, u, f.block, Saved(s2, io.reached, io.lost));
    } else {
      DropTxInv(s, u, h, io.drop);
    }
  }

  /** Other heights keep their transactions, so they stay complete. */
  lemma SyncCompleteElsewhere(s: Store, u: Universe, f: Fetch, h: int, io: SyncIO, j: int)
    requires TxInv(s, u) && CompleteAt(s, u, j) && Consistent(u) && Answered(u, f, h, io) && h >= 0 && j != h
    requires Finishes(io.drop) && !io.blockLost
    ensures CompleteAt(Outcome(s, f, h, io).store, u, j)
  {
    var s' := Outcome(s, f, h, io).store;
    SyncElsewhere(s, u, f, h, io, j);
    forall t | InNormalBlock(s', u, t, j) ensures IsNormalTx(s', t, j) {
      assert InNormalBlock(s, u, t, j);
      SyncTxElsewhere(s, u, f, h, io, t, j);
    }
  }

  lemma DropTxElsewhere(s: Store, h: int, io: DropIO, t: Hash, j: int)
    requires j != h
    ensures IsNormalTx(Drop(s, h, io).store, t, j) <==> IsNormalTx(s, t, j)
  {}

  /** Whatever fails or is lost, SyncOneBlock leaves the NORMAL transactions of every other height alone. */
  lemma SyncTxElsewhere(s: Store, u: Universe, f: Fetch, h: int, io: SyncIO, t: Hash, j: int)
    requires Homed(s, u) && TxsConsistent(u) && Answered(u, f, h, io) && j != h
    ensures IsNormalTx(Outcome(s, f, h, io).store, t, j) <==> IsNormalTx(s, t, j)
  {
    OutcomeIs(s, f, h, io);
    var s1 := Drop(s, h, io.drop).store;
    assert IsNormalTx(s1, t, j) <==> IsNormalTx(s, t, j) by { DropTxElsewhere(s, h, io.drop, t, j); }
    if Writes(s, f, h, io) {
      var s2 := SaveBlock(s1, f.block, io.blockLost);
      assert Homed(s2, u) by { DropHomed(s, u, h, io.drop); }
      assert IsNormalTx(s2, t, j) <==> IsNormalTx(s1, t, j);
      PutTxsNormal(s2, u, f.block, Saved(s2, io.reached, io.lost), t, j);
      assert Written(s2, f.block, Saved(s2, io.reached, io.lost), t) ==> !IsNormalTx(s2, t, j) by {
        if t in f.block.txs { HomeIs(u, f.block, t); }
      }
    }
  }

  lemma SyncTxsElsewhere(s: Store, u: Universe, f: Fetch, h: int, io: SyncIO, j: int)
    requires Homed(s, u) && TxsConsistent(u) && Answered(u, f, h, io) && j != h
    ensures NormalTxs(Outcome(s, f, h, io).store, j) == NormalTxs(s, j)
  {
    var s' := Outcome(s, f, h, io).store;
    forall t ensures t in NormalTxs(s', j) <==> t in NormalTxs(s, j) {
      SyncTxElsewhere(s, u, f, h, io, t, j);
    }
  }

  /** A finished SyncOneBlock completes its own height. */
  lemma SyncCompleteAt(s: Store, u: Universe, f: Fetch, h: int, io: SyncIO)
    requires TxInv(s, u) && Consistent(u) && Answered(u, f, h, io) && h >= 0
    requires Finishes(io.drop) && !io.blockLost && io.lost == {}
    requires Outcome(s, f, h, io).verdict == Done
    ensures CompleteAt(Outcome(s, f, h, io).store, u, h)
  {
    OutcomeIs(s, f, h, io);
    var s2 := PutBlock(Drop(s, h, io.drop).store, f.block);
    ReadyToWrite(s, u, f, h, io);
    PutTxsFull(s2, u, f.block, Saved(s2, io.reached, io.lost));
  }

  lemma SyncComplete(s: Store, u: Universe, f: Fetch, c: int, io: SyncIO)
    requires TxInv(s, u) && Complete(s, u, c) && Consistent(u) && Answered(u, f, c + 1, io) && c >= -1
    requires Finishes(io.drop) && !io.blockLost && io.lost == {}
    ensures var r := Outcome(s, f, c + 1, io); Complete(r.store, u, c + Stride(r.verdict))
  {
    var r := Outcome(s, f, c + 1, io);
    forall j | j <= c ensures CompleteAt(r.store, u, j) {
      SyncCompleteElsewhere(s, u, f, c + 1, io, j);
    }
    if r.verdict == Done {
      SyncCompleteAt(s, u, f, c + 1, io);
    }
  }

  /*--- Steps ---*/

  /** Every DropBlok that starts changing rows saves each change, and no revival of a block is lost. */
  predicate Reliable(step: Step) {
    match step
    case Poll(_, drop) => Finishes(drop)
    case Sync(_, io) => Finishes(io.drop) && !io.blockLost
    case _ => true
  }

  /** Nor is any COMMIT that revives a transaction. */
  predicate AllSaved(step: Step) {
    Reliable(step) && (step.Sync? ==> step.io.lost == {})
  }

  lemma SoundPoll(st: State, height: int, drop: DropIO, u: Universe)
    requires Sound(st, u) && Consistent(u) && st.target.None? && height >= 0 && Finishes(drop)
    ensures Sound(Polled(st, height, drop), u)
  {
    PollLoose(st, height, drop, u);
    if height < st.cursor {
      ShrunkTxInv(st, drop, u);
    }
  }

  lemma ShrunkTxInv(st: State, drop: DropIO, u: Universe)
    requires TxInv(st.store, u) && Consistent(u) && Finishes(drop)
    ensures TxInv(Shrunk(st, drop).store, u)
  {
    DropTxInv(st.store, u, st.cursor - 1, drop);
  }

  lemma SoundSync(st: State, f: Fetch, io: SyncIO, u: Universe)
    requires Sound(st, u) && Consistent(u) && st.target.Some? && Answered(u, f, st.cursor + 1, io)
    requires Finishes(io.drop) && !io.blockLost
    ensures Sound(Climbed(st, f, io), u)
  {
    var st' := Climbed(st, f, io);
    assert st'.store == Outcome(st.store, f, st.cursor + 1, io).store;
    assert Loose(st', u) by { SyncLoose(st, f, io, u); }
    assert TxInv(st'.store, u) by { SyncTxInv(st.store, u, f, st.cursor + 1, io); }
  }

  lemma {:induction false} SoundRun(st: State, trace: seq<Step>, u: Universe)
    requires Sound(st, u) && Consistent(u) && ValidRun(st, trace, u)
    requires forall step | step in trace :: Reliable(step)
    ensures Sound(Run(st, trace), u)
    decreases |trace|
  {
    if trace != [] {
      var step := trace[0];
      assert Reliable(step);
      if step.Poll? {
        SoundPoll(st, step.height, step.drop, u);
      } else if step.Sync? {
        SoundSync(st, step.fetch, step.io, u);
      } else if step.Restart? {
        RestartLoose(st, u);
      }
      SoundRun(Next(st, step), trace[1..], u);
    }
  }

  /*--- In all runs, restarted at will ---*/

  /** In every run, restarted at will, a height without a NORMAL block has no NORMAL transactions. */
  lemma NoStrayTransactions(trace: seq<Step>, u: Universe, h: int)
    requires Consistent(u) && ValidRun(Fresh, trace, u)
    requires forall step | step in trace :: Reliable(step)
    ensures var s := Run(Fresh, trace).store; At(s, h).None? ==> NormalTxs(s, h) == {}
  {
    SoundRun(Fresh, trace, u);
    var s := Run(Fresh, trace).store;
    assert forall t | t in NormalTxs(s, h) :: InNormalBlock(s, u, t, h);
  }

  /** Whenever SyncOneBlock gets to WriteTransactions, every transaction has no row or a FORK row. */
  lemma NoClashInSync(st: State, u: Universe, f: Fetch, io: SyncIO, t: Hash)
    requires Sound(st, u) && Consistent(u) && FetchServed(u, f, st.cursor + 1) && Finishes(io.drop)
    requires Drop(st.store, st.cursor + 1, io.drop).ok && t in f.block.txs
    ensures NoClash(Drop(st.store, st.cursor + 1, io.drop).store, t)
  {
    var h := st.cursor + 1;
    DropTxInv(st.store, u, h, io.drop);
    DropOwned(st.store, u, h, io.drop);
    NoClashAt(Drop(st.store, h, io.drop).store, u, f.block, t);
  }

  /**
   No duplicate insert in any run, restarted at will, including retries of a
   half-finished WriteTransactions: when the next SyncOneBlock of a reachable
   state has dropped its height, none of the block's transactions has a NORMAL
   row, so CreateTransaction is reached only for hashes without a row.
   */
  lemma NoDuplicateInsert(trace: seq<Step>, u: Universe, f: Fetch, io: SyncIO, t: Hash)
    requires Consistent(u) && ValidRun(Fresh, trace, u)
    requires forall step | step in trace :: Reliable(step)
    requires FetchServed(u, f, Run(Fresh, trace).cursor + 1) && Finishes(io.drop) && t in f.block.txs
    ensures var st := Run(Fresh, trace);
      var d := Drop(st.store, st.cursor + 1, io.drop);
      d.ok ==> NoClash(SaveBlock(d.store, f.block, io.blockLost), t)
  {
    var st := Run(Fresh, trace);
    assert Sound(st, u) by { SoundRun(Fresh, trace, u); }
    var d := Drop(st.store, st.cursor + 1, io.drop);
    if d.ok {
      assert NoClash(d.store, t) by { NoClashInSync(st, u, f, io, t); }
    }
  }

  /*--- Counting transactions ---*/

  lemma SubsetEqual(a: set<Hash>, b: set<Hash>)
    requires a <= b
    ensures a == b <==> |a| == |b|
  {
    assert b == a + (b - a);
    if |a| == |b| {
      assert |b - a| == 0;
    }
  }

  /** The query an operator can run: F_txn of the NORMAL row at `h` is the number of NORMAL transactions there. */
  ghost predicate CountAgrees(s: Store, h: int) {
    At(s, h).Some? ==> s.blocks[At(s, h).value].totals.txn == |NormalTxs(s, h)|
  }

  /** The NORMAL transactions at `h` are the block's exactly when there are as many as F_txn says. */
  lemma CompleteIffCounted(s: Store, u: Universe, h: int)
    requires TxInv(s, u) && CountsExact(s, u)
    ensures CompleteAt(s, u, h) <==> CountAgrees(s, h)
    ensures At(s, h).Some? ==> At(s, h).value in u.blocks
    ensures At(s, h).Some? ==> (CountAgrees(s, h) <==> NormalTxs(s, h) == u.blocks[At(s, h).value].txs.Keys)
  {
    if At(s, h).Some? {
      var k := At(s, h).value;
      assert RowServed(s.blocks[k], u, k);
      var txs, all := NormalTxs(s, h), u.blocks[k].txs.Keys;
      assert forall t | t in txs :: InNormalBlock(s, u, t, h);
      assert |u.blocks[k].txs| == |all|;
      SubsetEqual(txs, all);
      assert forall t :: InNormalBlock(s, u, t, h) <==> t in all;
      assert forall t :: IsNormalTx(s, t, h) <==> t in txs;
    }
  }

  /** Every NORMAL block between the cursor and MAX has as many NORMAL transactions as its F_txn says. */
  ghost predicate Counted(st: State) {
    forall h :: st.cursor < h < MaxHeight(st.store) ==> CountAgrees(st.store, h)
  }

  /** A restart keeps blocks and transactions in agreement exactly when the counts come out right. */
  lemma RestartAgreeIff(st: State, u: Universe)
    requires Agree(st, u) && Consistent(u) && CountsExact(st.store, u)
    ensures Agree(Restarted(st), u) <==> Counted(st)
  {
    RestartLoose(st, u);
    forall h ensures CompleteAt(st.store, u, h) <==> CountAgrees(st.store, h) {
      CompleteIffCounted(st.store, u, h);
    }
  }

  /** Every restart of the run happens when the counts come out right. */
  ghost predicate CountedRestarts(st: State, trace: seq<Step>)
    decreases |trace|
  {
    trace == [] || (
      && (trace[0].Restart? ==> Counted(st))
      && CountedRestarts(Next(st, trace[0]), trace[1..]))
  }

  lemma AgreePoll(st: State, height: int, drop: DropIO, u: Universe)
    requires Agree(st, u) && Consistent(u) && st.target.None? && height >= 0 && Finishes(drop)
    ensures Agree(Polled(st, height, drop), u)
  {
    SoundPoll(st, height, drop, u);
    if height < st.cursor {
      ShrunkComplete(st, drop, u);
    }
  }

  lemma ShrunkComplete(st: State, drop: DropIO, u: Universe)
    requires TxInv(st.store, u) && Complete(st.store, u, st.cursor) && Finishes(drop)
    ensures Complete(Shrunk(st, drop).store, u, Shrunk(st, drop).cursor)
  {
    DropAllComplete(st.store, u, st.cursor - 1, drop, st.cursor);
  }

  lemma AgreeSync(st: State, f: Fetch, io: SyncIO, u: Universe)
    requires Agree(st, u) && Consistent(u) && st.target.Some? && Answered(u, f, st.cursor + 1, io)
    requires Finishes(io.drop) && !io.blockLost && io.lost == {}
    ensures Agree(Climbed(st, f, io), u)
  {
    var st' := Climbed(st, f, io);
    var r := Outcome(st.store, f, st.cursor + 1, io);
    assert st'.store == r.store && st'.cursor == st.cursor + Stride(r.verdict);
    assert Sound(st', u) by { SoundSync(st, f, io, u); }
    assert Complete(r.store, u, st.cursor + Stride(r.verdict)) by { SyncComplete(st.store, u, f, st.cursor, io); }
  }

  lemma {:induction false} AgreeRun(st: State, trace: seq<Step>, u: Universe)
    requires Agree(st, u) && CountsExact(st.store, u) && Consistent(u) && ValidRun(st, trace, u)
    requires CountedRestarts(st, trace) && forall step | step in trace :: AllSaved(step)
    ensures Agree(Run(st, trace), u)
    decreases |trace|
  {
    if trace != [] {
      var step := trace[0];
      assert AllSaved(step);
      BookedStep(st, step, u);
      if step.Poll? {
        AgreePoll(st, step.height, step.drop, u);
      } else if step.Sync? {
        AgreeSync(st, step.fetch, step.io, u);
      } else if step.Restart? {
        RestartAgreeIff(st, u);
      }
      AgreeRun(Next(st, step), trace[1..], u);
    }
  }

  /** A gateway that never reports below the cursor makes every restart a counted one. */
  lemma {:induction false} ShrinkFreeIsCounted(st: State, trace: seq<Step>, u: Universe)
    requires Upright(st, u) && BlocksConsistent(u) && ValidRun(st, trace, u) && ShrinkFree(st, trace)
    requires forall step | step in trace :: DropSaved(step) && SeesOneChain(step)
    ensures CountedRestarts(st, trace)
    decreases |trace|
  {
    if trace != [] {
      if trace[0].Restart? {
        UprightIsClean(st, u);
        NoStaleRestartable(st, u);
      }
      UprightStep(st, trace[0], u);
      ShrinkFreeIsCounted(Next(st, trace[0]), trace[1..], u);
    }
  }

  /**
   Block/transaction agreement: in every run whose restarts are counted, at each
   height up to the cursor the NORMAL transaction rows are exactly the
   transactions of the NORMAL block.
   */
  lemma TransactionAgreement(trace: seq<Step>, u: Universe, h: int)
    requires Consistent(u) && ValidRun(Fresh, trace, u) && CountedRestarts(Fresh, trace)
    requires forall step | step in trace :: AllSaved(step)
    ensures var st := Run(Fresh, trace);
      At(st.store, h).Some? && h <= st.cursor ==>
        At(st.store, h).value in u.blocks && NormalTxs(st.store, h) == u.blocks[At(st.store, h).value].txs.Keys
  {
    AgreeRun(Fresh, trace, u);
    BookedRun(Fresh, trace, u);
    CompleteIffCounted(Run(Fresh, trace).store, u, h);
  }

  /*--- Fees ---*/

  /** The value of F_tx_fee over the NORMAL transaction rows at a height. */
  ghost function StoredFees(s: Store, h: int): map<Hash, int> {
    map t | t in s.txs && IsNormalTx(s, t, h) :: FeeValue(s.txs[t].data)
  }

  /** What F_tx_fee parses to. */
  function FeeValue(data: TxData): int {
    match Decimal.Parse(data.fee) case Some(n) => n case None => 0
  }

  /** F_fees is the sum of F_tx_fee over the NORMAL transactions at the height and F_txn is their number. */
  ghost predicate FeesAgree(s: Store, h: int) {
    At(s, h).Some? ==>
      && Decimal.Parse(s.blocks[At(s, h).value].totals.fees) == Some(SumMap(StoredFees(s, h)))
      && s.blocks[At(s, h).value].totals.txn == |NormalTxs(s, h)|
  }

  lemma FeeStored(tx: Tx)
    requires Typed(tx)
    ensures FeeValue(NewTxData(tx)) == Fee(tx)
  {
    Decimal.ParsePrint(Fee(tx));
  }

  /** Row by row, the stored fees at a complete height are the chain's. */
  lemma StoredFeesExact(s: Store, u: Universe, h: int, b: ChainBlock)
    requires TxRowsServed(s, u) && TxsConsistent(u) && NormalTxs(s, h) == b.txs.Keys
    requires b.hash in u.blocks && b == u.blocks[b.hash]
    ensures StoredFees(s, h) == Fees(b.txs)
  {
    assert StoredFees(s, h).Keys == NormalTxs(s, h);
    assert Fees(b.txs).Keys == b.txs.Keys;
    forall t | t in b.txs ensures t in StoredFees(s, h) && StoredFees(s, h)[t] == Fees(b.txs)[t] {
      assert t in NormalTxs(s, h);
      HomeIs(u, b, t);
      assert DataServed(s.txs[t], u, t);
      FeeStored(b.txs[t]);
    }
    SameMap(StoredFees(s, h), Fees(b.txs));
  }

  lemma SameMap(m: map<Hash, int>, n: map<Hash, int>)
    requires m.Keys == n.Keys && forall t | t in n :: m[t] == n[t]
    ensures m == n
  {}

  /** Fees are conserved at a height exactly when its transactions are all there. */
  lemma FeesIffCounted(s: Store, u: Universe, h: int)
    requires TxInv(s, u) && Consistent(u) && CountsExact(s, u) && Priced(s, u)
    ensures FeesAgree(s, h) <==> CountAgrees(s, h)
  {
    CompleteIffCounted(s, u, h);
    if At(s, h).Some? && CountAgrees(s, h) {
      var k := At(s, h).value;
      StoredFeesExact(s, u, h, u.blocks[k]);
      Decimal.ParsePrint(TotalFees(u.blocks[k].txs));
    }
  }

  /**
   Fee conservation across the tables, through any drop and revive history:
   F_fees of a synced NORMAL block is the sum of F_tx_fee over the NORMAL
   transactions at its height, and F_txn is their number.
   */
  lemma FeeConservation(trace: seq<Step>, u: Universe, h: int)
    requires Consistent(u) && ValidRun(Fresh, trace, u) && CountedRestarts(Fresh, trace)
    requires forall step | step in trace :: AllSaved(step)
    requires h <= Run(Fresh, trace).cursor
    ensures FeesAgree(Run(Fresh, trace).store, h)
  {
    AgreeRun(Fresh, trace, u);
    BookedRun(Fresh, trace, u);
    PricedRun(Fresh, trace, u);
    CompleteIffCounted(Run(Fresh, trace).store, u, h);
    FeesIffCounted(Run(Fresh, trace).store, u, h);
  }

  /** A restart keeps fees conserved up to the cursor exactly when the counts come out right. */
  lemma RestartFeesIff(st: State, u: Universe)
    requires Agree(st, u) && Consistent(u) && CountsExact(st.store, u) && Priced(st.store, u)
    ensures (forall h :: h <= Restarted(st).cursor ==> FeesAgree(st.store, h)) <==> Counted(st)
  {
    forall h ensures FeesAgree(st.store, h) <==> CountAgrees(st.store, h) {
      FeesIffCounted(st.store, u, h);
    }
    forall h | h <= st.cursor ensures CountAgrees(st.store, h) {
      assert CompleteAt(st.store, u, h);
      CompleteIffCounted(st.store, u, h);
    }
  }
}
