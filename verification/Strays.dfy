/**
 Stray transactions: NORMAL rows at a height without a NORMAL block, as a lost
 update leaves them. They hold up the follower for one pass at each height
 where the chain's block contains one, and never keep it from converging.
 */
module Strays {
  import opened Common
  import opened Chain
  import opened Tables
  import opened Follower
  import opened Restarts
  import opened Runs
  import opened Agreement
  import opened Convergence

  /*--- One height ---*/

  /** Some transaction of the block is a stray at its height, so that inserting it meets the UNIQUE key. */
  ghost predicate Blocked(s: Store, b: ChainBlock) {
    b.number > 1 && At(s, b.number).None? && exists t :: t in b.txs && IsNormalTx(s, t, b.number)
  }

  /** An undisturbed call whose WriteTransactions gets to `reached` before it meets a stray. */
  function Try(b: ChainBlock, reached: set<Hash>): SyncIO {
    Clean(b).(reached := reached)
  }

  /** The tables WriteTransactions starts from in an undisturbed call. */
  ghost function Prepared(s: Store, b: ChainBlock): Store {
    PutBlock(Drop(s, b.number, CleanDrop).store, b)
  }

  lemma PreparedTx(s: Store, b: ChainBlock, t: Hash)
    requires b.number > 1
    ensures IsNormalTx(Prepared(s, b), t, b.number) <==> IsNormalTx(s, t, b.number) && At(s, b.number).None?
    ensures t in Prepared(s, b).txs <==> t in s.txs
  {}

  lemma PreparedHomed(s: Store, u: Universe, b: ChainBlock)
    requires Homed(s, u)
    ensures Homed(Prepared(s, b), u)
  {
    DropHomed(s, u, b.number, CleanDrop);
  }

  /** Every transaction of a writable block can be written exactly when none of them is a stray. */
  lemma WritableIffNotBlocked(s: Store, u: Universe, b: ChainBlock)
    requires Homed(s, u) && TxsConsistent(u) && Served(u, b) && Writable(b)
    ensures AllWritable(Prepared(s, b), b) <==> !Blocked(s, b)
  {
    var s2 := Prepared(s, b);
    PreparedHomed(s, u, b);
    forall t | t in b.txs ensures TxWritable(s2, t, b.txs[t]) <==> !IsNormalTx(s2, t, b.number) {
      HomeIs(u, b, t);
    }
    if b.number > 1 {
      forall t ensures IsNormalTx(s2, t, b.number) <==> IsNormalTx(s, t, b.number) && At(s, b.number).None? {
        PreparedTx(s, b, t);
      }
    }
  }

  /** The parent the call looks for is there. */
  ghost predicate OverParent(s: Store, f: Fetch, h: int) {
    h == 0 || At(s, h - 1) == Some(f.parent.hash)
  }

  lemma TryWrites(s: Store, u: Universe, f: Fetch, h: int, reached: set<Hash>)
    requires StoreInv(s, u) && BlocksConsistent(u) && FetchServed(u, f, h) && Writable(f.block) && OverParent(s, f, h)
    ensures Outcome(s, f, h, Try(f.block, reached)) == WriteAll(Prepared(s, f.block), f.block, Try(f.block, reached))
  {
    var io := Try(f.block, reached);
    assert Writes(s, f, h, io) by { DropAt(s, u, h, CleanDrop, h - 1); }
    WritesAll(s, f, h, io);
  }

  lemma TryRow(s: Store, u: Universe, f: Fetch, h: int, reached: set<Hash>)
    requires StoreInv(s, u) && BlocksConsistent(u) && FetchServed(u, f, h) && Writable(f.block) && OverParent(s, f, h)
    ensures var r := Outcome(s, f, h, Try(f.block, reached)); StoreInv(r.store, u) && At(r.store, h) == Some(f.block.hash)
  {
    TryWrites(s, u, f, h, reached);
    DropReady(s, u, f, h, CleanDrop);
    PutKeeps(Drop(s, h, CleanDrop).store, u, f.block);
    WriteAllKeeps(Prepared(s, f.block), u, f.block, Try(f.block, reached), h);
  }

  lemma TryVerdict(s: Store, u: Universe, f: Fetch, h: int, reached: set<Hash>)
    requires StoreInv(s, u) && Homed(s, u) && Consistent(u) && FetchServed(u, f, h) && h >= 0
    requires Writable(f.block) && OverParent(s, f, h)
    ensures Outcome(s, f, h, Try(f.block, reached)).verdict ==
      if !Blocked(s, f.block) && f.block.txs.Keys <= reached then Done else Stopped
  {
    TryWrites(s, u, f, h, reached);
    WritableIffNotBlocked(s, u, f.block);
  }

  lemma TryTx(s: Store, u: Universe, f: Fetch, h: int, t: Hash)
    requires StoreInv(s, u) && Homed(s, u) && Consistent(u) && FetchServed(u, f, h) && h > 1
    requires Writable(f.block) && OverParent(s, f, h) && !Blocked(s, f.block)
    ensures IsNormalTx(Outcome(s, f, h, Clean(f.block)).store, t, h) <==>
      t in f.block.txs || (IsNormalTx(s, t, h) && At(s, h).None?)
  {
    var b, s2 := f.block, Prepared(s, f.block);
    var io := Try(b, b.txs.Keys);
    TryWrites(s, u, f, h, b.txs.Keys);
    WritableIffNotBlocked(s, u, b);
    PreparedHomed(s, u, b);
    PreparedTx(s, b, t);
    PutTxsNormal(s2, u, b, Saved(s2, io.reached, {}), t, h);
  }

  /** An unblocked pass leaves at its height the block's transactions, and any strays that were there. */
  lemma TryTxs(s: Store, u: Universe, f: Fetch, h: int)
    requires StoreInv(s, u) && Homed(s, u) && Consistent(u) && FetchServed(u, f, h) && h > 1
    requires Writable(f.block) && OverParent(s, f, h) && !Blocked(s, f.block)
    ensures NormalTxs(Outcome(s, f, h, Clean(f.block)).store, h) ==
      f.block.txs.Keys + if At(s, h).None? then NormalTxs(s, h) else {}
  {
    var s' := Outcome(s, f, h, Clean(f.block)).store;
    forall t ensures t in NormalTxs(s', h) <==> t in f.block.txs || (t in NormalTxs(s, h) && At(s, h).None?) {
      TryTx(s, u, f, h, t);
    }
  }

  lemma TryHomed(s: Store, u: Universe, f: Fetch, h: int, reached: set<Hash>)
    requires Homed(s, u) && TxsConsistent(u) && FetchServed(u, f, h)
    ensures Homed(Outcome(s, f, h, Try(f.block, reached)).store, u)
  {
    SyncHomed(s, u, f, h, Try(f.block, reached));
  }

  /**
   A stray that the served block contains costs exactly one failed pass: that
   pass still makes the block NORMAL, so the next one retires every transaction
   at the height, writes them anew and ends well, with just the block's.
   */
  lemma StrayFailsOnce(s: Store, u: Universe, f: Fetch, h: int, reached: set<Hash>)
    requires StoreInv(s, u) && Homed(s, u) && Consistent(u) && FetchServed(u, f, h) && h >= 0
    requires Writable(f.block) && OverParent(s, f, h) && Blocked(s, f.block)
    ensures var r1 := Outcome(s, f, h, Try(f.block, reached));
      var r2 := Outcome(r1.store, f, h, Clean(f.block));
      && r1.verdict == Stopped && At(r1.store, h) == Some(f.block.hash)
      && r2.verdict == Done && NormalTxs(r2.store, h) == f.block.txs.Keys
  {
    var r1 := Outcome(s, f, h, Try(f.block, reached));
    TryVerdict(s, u, f, h, reached);
    TryRow(s, u, f, h, reached);
    TryHomed(s, u, f, h, reached);
    assert OverParent(r1.store, f, h) by { SyncElsewhere(s, u, f, h, Try(f.block, reached), h - 1); }
    TryVerdict(r1.store, u, f, h, f.block.txs.Keys);
    TryTxs(r1.store, u, f, h);
  }

  /**
   Strays that the served block does not contain stay beside its transactions
   until that height is next dropped, which retires them with the block.
   */
  lemma StrayStays(s: Store, u: Universe, f: Fetch, h: int, io: DropIO)
    requires StoreInv(s, u) && Homed(s, u) && Consistent(u) && FetchServed(u, f, h) && h > 1
    requires Writable(f.block) && OverParent(s, f, h) && !Blocked(s, f.block) && At(s, h).None?
    requires Finishes(io) && !io.blockFails
    ensures var r := Outcome(s, f, h, Clean(f.block));
      && r.verdict == Done && NormalTxs(r.store, h) == f.block.txs.Keys + NormalTxs(s, h)
      && NormalTxs(Drop(r.store, h, io).store, h) == {}
  {
    var r := Outcome(s, f, h, Clean(f.block));
    TryVerdict(s, u, f, h, f.block.txs.Keys);
    TryRow(s, u, f, h, f.block.txs.Keys);
    TryTxs(s, u, f, h);
    forall t ensures !IsNormalTx(Drop(r.store, h, io).store, t, h) {
      DropNormalTx(r.store, h, io, t, h);
    }
  }

  /*--- The loop ---*/

  /** How far WriteTransactions gets at each height before it meets a stray. */
  type Stops = int -> set<Hash>

  /** One pass of the inner loop against the fixed chain, in which nothing fails but inserting a stray. */
  ghost function Attempt(st: State, chain: seq<ChainBlock>, stops: Stops): Step
    requires 0 <= st.cursor + 1 < |chain|
  {
    var h := st.cursor + 1;
    Sync(FetchAt(chain, h), Try(chain[h], if Blocked(st.store, chain[h]) then stops(h) else chain[h].txs.Keys))
  }

  /** The inner loop is on its way to the top of the chain, or there; strays may be about. */
  ghost predicate Chasing(st: State, u: Universe, chain: seq<ChainBlock>) {
    && InShape(st, u, chain)
    && st.target == (if st.cursor < |chain| - 1 then Some(|chain| - 1) else None)
    && st.cursor < |chain|
  }

  /** What one pass does: walk back off the chain; on it, finish the height unless it is blocked. */
  lemma AttemptVerdict(st: State, u: Universe, chain: seq<ChainBlock>, stops: Stops)
    requires InShape(st, u, chain) && st.cursor < |chain| - 1
    ensures var step := Attempt(st, chain, stops);
      Outcome(st.store, step.fetch, st.cursor + 1, step.io).verdict ==
        if !OnChain(st.store, chain, st.cursor) then WalkBack
        else if Blocked(st.store, chain[st.cursor + 1]) then Stopped else Done
  {
    var h := st.cursor + 1;
    var step := Attempt(st, chain, stops);
    FetchValid(u, chain, h);
    if OnChain(st.store, chain, st.cursor) {
      TryVerdict(st.store, u, step.fetch, h, step.io.reached);
    } else {
      WalksOff(st.store, u, step.fetch, h, step.io);
    }
  }

  lemma AttemptKeeps(st: State, u: Universe, chain: seq<ChainBlock>, stops: Stops)
    requires Chasing(st, u, chain) && st.cursor < |chain| - 1
    ensures Chasing(Next(st, Attempt(st, chain, stops)), u, chain)
  {
    var step := Attempt(st, chain, stops);
    var st' := Climbed(st, step.fetch, step.io);
    FetchValid(u, chain, st.cursor + 1);
    assert Safe(st', u) by { SyncSafe(st, step.fetch, step.io, u); }
    assert Homed(st'.store, u) by { SyncHomed(st.store, u, step.fetch, st.cursor + 1, step.io); }
    AttemptVerdict(st, u, chain, stops);
  }

  /** The NORMAL block rows after one pass. */
  lemma AttemptRows(st: State, u: Universe, chain: seq<ChainBlock>, stops: Stops)
    requires InShape(st, u, chain) && st.cursor < |chain| - 1
    ensures var s' := Next(st, Attempt(st, chain, stops)).store;
      && (forall j :: j != st.cursor + 1 ==> At(s', j) == At(st.store, j))
      && (OnChain(st.store, chain, st.cursor) ==> At(s', st.cursor + 1) == Some(chain[st.cursor + 1].hash))
  {
    var h, step := st.cursor + 1, Attempt(st, chain, stops);
    var s' := Outcome(st.store, step.fetch, h, step.io).store;
    assert Next(st, step).store == s';
    FetchValid(u, chain, h);
    assert forall j :: j != h ==> At(s', j) == At(st.store, j) by { SyncOthers(st.store, u, step.fetch, h, step.io); }
    if OnChain(st.store, chain, st.cursor) {
      assert At(s', h) == Some(chain[h].hash) by { TryRow(st.store, u, step.fetch, h, step.io.reached); }
    }
  }

  lemma BlockedElsewhere(s: Store, u: Universe, f: Fetch, h: int, io: SyncIO, b: ChainBlock)
    requires Homed(s, u) && TxsConsistent(u) && Answered(u, f, h, io) && b.number != h
    requires At(Outcome(s, f, h, io).store, b.number) == At(s, b.number)
    ensures Blocked(Outcome(s, f, h, io).store, b) <==> Blocked(s, b)
  {
    var s' := Outcome(s, f, h, io).store;
    forall t ensures IsNormalTx(s', t, b.number) <==> IsNormalTx(s, t, b.number) {
      SyncTxElsewhere(s, u, f, h, io, t, b.number);
    }
  }

  lemma BlockedOffChain(s: Store, u: Universe, f: Fetch, io: SyncIO, b: ChainBlock)
    requires StoreInv(s, u) && io.drop == CleanDrop && !io.readFails && ParentDiffers(s, f, b.number)
    ensures Blocked(Outcome(s, f, b.number, io).store, b) <==> Blocked(s, b)
  {
    WalksOff(s, u, f, b.number, io);
    DroppedBlocked(s, u, b);
  }

  /** A pass blocks no height that was not, and unblocks the one it writes. */
  lemma AttemptBlocked(st: State, u: Universe, chain: seq<ChainBlock>, stops: Stops, j: int)
    requires InShape(st, u, chain) && st.cursor < |chain| - 1 && 0 <= j < |chain|
    ensures Blocked(Next(st, Attempt(st, chain, stops)).store, chain[j]) <==>
      Blocked(st.store, chain[j]) && !(j == st.cursor + 1 && OnChain(st.store, chain, st.cursor))
  {
    var h, step := st.cursor + 1, Attempt(st, chain, stops);
    assert Next(st, step).store == Outcome(st.store, step.fetch, h, step.io).store;
    AttemptRows(st, u, chain, stops);
    FetchValid(u, chain, h);
    if j != h {
      BlockedElsewhere(st.store, u, step.fetch, h, step.io, chain[j]);
    } else if !OnChain(st.store, chain, st.cursor) {
      BlockedOffChain(st.store, u, step.fetch, step.io, chain[h]);
    }
  }

  /** DropBlok neither makes nor removes strays. */
  lemma DroppedBlocked(s: Store, u: Universe, b: ChainBlock)
    requires StoreInv(s, u)
    ensures Blocked(Drop(s, b.number, CleanDrop).store, b) <==> Blocked(s, b)
  {
    var s' := Drop(s, b.number, CleanDrop).store;
    DropAt(s, u, b.number, CleanDrop, b.number);
    forall t ensures IsNormalTx(s', t, b.number) && b.number > 1 <==>
      IsNormalTx(s, t, b.number) && At(s, b.number).None? && b.number > 1
    {
      DropNormalTx(s, b.number, CleanDrop, t, b.number);
    }
  }

  /** The blocked heights from `lo` to the top of the chain. */
  ghost function BlockedFrom(s: Store, chain: seq<ChainBlock>, lo: nat): nat
    decreases |chain| - lo
  {
    if lo >= |chain| then 0 else (if Blocked(s, chain[lo]) then 1 else 0) + BlockedFrom(s, chain, lo + 1)
  }

  lemma {:induction false} BlockedSame(s: Store, s': Store, chain: seq<ChainBlock>, lo: nat)
    requires forall j | lo <= j < |chain| :: Blocked(s', chain[j]) <==> Blocked(s, chain[j])
    ensures BlockedFrom(s', chain, lo) == BlockedFrom(s, chain, lo)
    decreases |chain| - lo
  {
    if lo < |chain| { BlockedSame(s, s', chain, lo + 1); }
  }

  /** Passes left: the walk back, the climb, and one more for each blocked height on the climb. */
  ghost function Left(st: State, chain: seq<ChainBlock>): nat
    requires -1 <= st.cursor < |chain|
  {
    Remaining(st, chain) + BlockedFrom(st.store, chain, ForkPoint(st.store, chain, st.cursor) + 1)
  }

  /** Each pass brings the loop exactly one pass closer to its end. */
  lemma AttemptProgress(st: State, u: Universe, chain: seq<ChainBlock>, stops: Stops)
    requires Chasing(st, u, chain) && st.cursor < |chain| - 1
    ensures var st' := Next(st, Attempt(st, chain, stops));
      -1 <= st'.cursor < |chain| && Left(st', chain) == Left(st, chain) - 1
  {
    var st' := Next(st, Attempt(st, chain, stops));
    AttemptVerdict(st, u, chain, stops);
    AttemptRows(st, u, chain, stops);
    forall j | 0 <= j < |chain|
      ensures Blocked(st'.store, chain[j]) <==>
        Blocked(st.store, chain[j]) && !(j == st.cursor + 1 && OnChain(st.store, chain, st.cursor))
    {
      AttemptBlocked(st, u, chain, stops, j);
    }
    LeftDrops(st, st', chain);
  }

  lemma LeftDrops(st: State, st': State, chain: seq<ChainBlock>)
    requires -1 <= st.cursor < |chain| - 1
    requires forall j :: j != st.cursor + 1 ==> At(st'.store, j) == At(st.store, j)
    requires OnChain(st.store, chain, st.cursor) ==> At(st'.store, st.cursor + 1) == Some(chain[st.cursor + 1].hash)
    requires st'.cursor == st.cursor +
      if !OnChain(st.store, chain, st.cursor) then -1 else if Blocked(st.store, chain[st.cursor + 1]) then 0 else 1
    requires forall j | 0 <= j < |chain| :: Blocked(st'.store, chain[j]) <==>
      Blocked(st.store, chain[j]) && !(j == st.cursor + 1 && OnChain(st.store, chain, st.cursor))
    ensures -1 <= st'.cursor < |chain| && Left(st', chain) == Left(st, chain) - 1
  {
    var h := st.cursor + 1;
    if !OnChain(st.store, chain, st.cursor) {
      ForkPointSame(st.store, st'.store, chain, st.cursor - 1);
      BlockedSame(st.store, st'.store, chain, ForkPoint(st.store, chain, st.cursor) + 1);
    } else {
      BlockedSame(st.store, st'.store, chain, h + 1);
    }
  }

  /** The loop: `for blockNumber > block_now`, every pass against the fixed chain. */
  ghost function Chase(st: State, u: Universe, chain: seq<ChainBlock>, stops: Stops): State
    requires Chasing(st, u, chain)
    decreases Left(st, chain)
  {
    if st.cursor < |chain| - 1 then
      AttemptKeeps(st, u, chain, stops);
      AttemptProgress(st, u, chain, stops);
      Chase(Next(st, Attempt(st, chain, stops)), u, chain, stops)
    else st
  }

  /** How many times the loop body runs. */
  ghost function Attempts(st: State, u: Universe, chain: seq<ChainBlock>, stops: Stops): nat
    requires Chasing(st, u, chain)
    decreases Left(st, chain)
  {
    if st.cursor < |chain| - 1 then
      AttemptKeeps(st, u, chain, stops);
      AttemptProgress(st, u, chain, stops);
      1 + Attempts(Next(st, Attempt(st, chain, stops)), u, chain, stops)
    else 0
  }

  /** The loop is below the top, or on the chain there. */
  ghost predicate Arriving(st: State, chain: seq<ChainBlock>)
    requires st.cursor < |chain|
  {
    st.cursor < |chain| - 1 || OnChain(st.store, chain, st.cursor)
  }

  lemma AttemptArrives(st: State, u: Universe, chain: seq<ChainBlock>, stops: Stops)
    requires Chasing(st, u, chain) && st.cursor < |chain| - 1
    ensures var st' := Next(st, Attempt(st, chain, stops)); st'.cursor < |chain| && Arriving(st', chain)
  {
    AttemptVerdict(st, u, chain, stops);
    AttemptRows(st, u, chain, stops);
  }

  lemma {:induction false} ChaseEnds(st: State, u: Universe, chain: seq<ChainBlock>, stops: Stops)
    requires Chasing(st, u, chain) && Arriving(st, chain)
    ensures var end := Chase(st, u, chain, stops);
      Chasing(end, u, chain) && end.cursor == |chain| - 1 && OnChain(end.store, chain, end.cursor)
    ensures st.cursor < |chain| - 1 ==> Attempts(st, u, chain, stops) == Left(st, chain)
    decreases Left(st, chain)
  {
    if st.cursor < |chain| - 1 {
      var st' := Next(st, Attempt(st, chain, stops));
      AttemptKeeps(st, u, chain, stops);
      AttemptProgress(st, u, chain, stops);
      AttemptArrives(st, u, chain, stops);
      ChaseEnds(st', u, chain, stops);
      if st'.cursor == |chain| - 1 { TopLeft(st', chain); }
    }
  }

  lemma TopLeft(st: State, chain: seq<ChainBlock>)
    requires -1 <= st.cursor == |chain| - 1 && OnChain(st.store, chain, st.cursor)
    ensures Left(st, chain) == 0
  {}

  /** The NORMAL row at every height is the chain's block, with the cursor at the top. */
  ghost predicate BlocksMirror(st: State, chain: seq<ChainBlock>) {
    && st.cursor == |chain| - 1 && st.target.None?
    && forall h | 0 <= h < |chain| :: At(st.store, h) == Some(chain[h].hash)
  }

  lemma OnTopBlocksMirror(st: State, u: Universe, chain: seq<ChainBlock>)
    requires Chasing(st, u, chain) && st.cursor == |chain| - 1 && OnChain(st.store, chain, st.cursor)
    ensures BlocksMirror(st, chain)
  {
    forall h | 0 <= h < |chain| ensures At(st.store, h) == Some(chain[h].hash) {
      MatchesBelow(st.store, u, chain, st.cursor, h);
    }
  }

  /**
   Convergence of the blocks, whatever became of the transactions: from any
   linked prefix below a fixed chain of height N the inner loop ends with the
   cursor at N and the chain's block at every height 0..N. The body runs once
   per height walked back, once per height climbed, and once more for each
   height climbed whose block contains a stray.
   */
  lemma BlocksConverge(st: State, u: Universe, chain: seq<ChainBlock>, stops: Stops)
    requires Chasing(st, u, chain) && st.cursor < |chain| - 1
    ensures BlocksMirror(Chase(st, u, chain, stops), chain)
    ensures var f := ForkPoint(st.store, chain, st.cursor);
      Attempts(st, u, chain, stops) == (st.cursor - f) + (|chain| - 1 - f) + BlockedFrom(st.store, chain, f + 1)
  {
    ChaseMirrors(st, u, chain, stops);
    assert Attempts(st, u, chain, stops) == Left(st, chain) by { ChaseEnds(st, u, chain, stops); }
  }

  lemma ChaseMirrors(st: State, u: Universe, chain: seq<ChainBlock>, stops: Stops)
    requires Chasing(st, u, chain) && Arriving(st, chain)
    ensures BlocksMirror(Chase(st, u, chain, stops), chain)
  {
    ChaseEnds(st, u, chain, stops);
    OnTopBlocksMirror(Chase(st, u, chain, stops), u, chain);
  }

  /*--- From any reachable state ---*/

  lemma ChasesTo(st: State, u: Universe, chain: seq<ChainBlock>)
    requires InShape(st, u, chain) && st.target.Some? && st.target.value < |chain|
    ensures Chasing(st, u, UpTo(chain, st.target.value))
  {
    PrefixFollowable(u, chain, st.target.value + 1);
  }

  /** The climb under way, if any, then the poll that finds the chain's height. */
  ghost function ChasedAndPolled(st: State, u: Universe, chain: seq<ChainBlock>, stops: Stops): State
    requires InShape(st, u, chain) && WillSettle(st, chain)
  {
    if st.target.Some? then
      ChasesTo(st, u, chain);
      Polled(Chase(st, u, UpTo(chain, st.target.value), stops), |chain| - 1, CleanDrop)
    else Polled(st, |chain| - 1, CleanDrop)
  }

  lemma PollChases(st: State, u: Universe, chain: seq<ChainBlock>)
    requires InShape(st, u, chain) && st.target.None? && st.cursor < |chain|
    ensures Chasing(Polled(st, |chain| - 1, CleanDrop), u, chain)
  {
    assert Polled(st, |chain| - 1, CleanDrop) ==
      State(st.cursor, if |chain| - 1 > st.cursor then Some(|chain| - 1) else None, st.store);
  }

  /**
   After any run in which no retirement before a write is lost, each fetch is
   from one chain view and restarts are checked, with whatever transactions
   were lost or stranded, the loop still brings the blocks level with a stable
   chain that the climb's target does not exceed.
   */
  lemma BlocksConvergeAfterAnyRun(trace: seq<Step>, u: Universe, chain: seq<ChainBlock>, stops: Stops)
    requires Consistent(u) && ValidRun(Fresh, trace, u) && CheckedRestarts(Fresh, trace)
    requires forall step | step in trace :: DropSaved(step) && SeesOneChain(step)
    requires Followable(u, chain) && WillSettle(Run(Fresh, trace), chain)
    ensures var st := Run(Fresh, trace);
      && InShape(st, u, chain)
      && Chasing(ChasedAndPolled(st, u, chain, stops), u, chain)
      && BlocksMirror(Chase(ChasedAndPolled(st, u, chain, stops), u, chain, stops), chain)
  {
    var st := Run(Fresh, trace);
    FreshUpright(u);
    assert Safe(st, u) by { SafeRun(Fresh, trace, u); }
    assert Homed(st.store, u) by { BookedRun(Fresh, trace, u); }
    if st.target.Some? {
      ChasesTo(st, u, chain);
      ChaseEnds(st, u, UpTo(chain, st.target.value), stops);
      PollChases(Chase(st, u, UpTo(chain, st.target.value), stops), u, chain);
    } else {
      PollChases(st, u, chain);
    }
    ChaseMirrors(ChasedAndPolled(st, u, chain, stops), u, chain, stops);
  }
}
