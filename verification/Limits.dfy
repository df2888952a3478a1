/**
 Where the follower's guarantees stop: for each assumption the other modules
 make, exactly when the code keeps the property without it, and runs in which
 it does not.
 */
module Limits {
  import opened Common
  import opened Chain
  import opened Tables
  import opened Follower
  import opened Restarts
  import opened Runs
  import opened Agreement
  import opened Convergence

  /*--- One chain view (block and parent are read in two calls) ---*/

  lemma LinkedIs(s: Store, u: Universe, h: int, b: ChainBlock, p: Hash)
    requires StoreInv(s, u) && Served(u, b) && At(s, h) == Some(b.hash) && At(s, h - 1) == Some(p)
    ensures Linked(s, h) <==> b.parentHash == p
  {
    assert RowServed(s.blocks[b.hash], u, b.hash);
  }

  /** ParentHash is never compared: the row written is linked exactly when the two reads agree. */
  lemma LinkedIffOneView(s: Store, u: Universe, f: Fetch, h: int, io: SyncIO)
    requires StoreInv(s, u) && BlocksConsistent(u) && FetchServed(u, f, h) && h > 0
    requires !io.drop.blockLost && !io.blockLost
    ensures var r := Outcome(s, f, h, io);
      r.verdict == Done ==> (Linked(r.store, h) <==> f.block.parentHash == f.parent.hash)
  {
    var r := Outcome(s, f, h, io);
    SyncRows(s, u, f, h, io);
    if r.verdict == Done {
      assert At(r.store, h - 1) == At(s, h - 1) by { SyncElsewhere(s, u, f, h, io, h - 1); }
      LinkedIs(r.store, u, h, f.block, f.parent.hash);
    }
  }

  /*--- The old row is retired (never at heights 0 and 1, and not when the COMMIT is lost) ---*/

  /** DropBlok leaves the NORMAL row at `h` where it is. */
  ghost predicate RowLeft(s: Store, h: int, io: DropIO) {
    At(s, h).Some? && (h <= 1 || io.blockLost)
  }

  lemma DropLeaves(s: Store, h: int, io: DropIO, k: Hash, j: int)
    requires Unique(s) && Drop(s, h, io).ok
    ensures IsNormal(Drop(s, h, io).store, k, j) <==> IsNormal(s, k, j) && (j == h ==> RowLeft(s, h, io))
    ensures k in Drop(s, h, io).store.blocks <==> k in s.blocks
    ensures k in s.blocks ==> Drop(s, h, io).store.blocks[k].height == s.blocks[k].height
  {}

  lemma SaveNormal(s: Store, b: ChainBlock, lost: bool, k: Hash, j: int)
    requires b.hash in s.blocks ==> s.blocks[b.hash].height == b.number
    ensures IsNormal(SaveBlock(s, b, lost), k, j) <==>
      IsNormal(s, k, j) || (k == b.hash && j == b.number && !(lost && b.hash in s.blocks))
  {}

  lemma SyncNormal(s: Store, f: Fetch, h: int, io: SyncIO, k: Hash, j: int)
    requires Unique(s) && f.block.number == h && Writes(s, f, h, io)
    requires f.block.hash in s.blocks ==> s.blocks[f.block.hash].height == h
    ensures IsNormal(Outcome(s, f, h, io).store, k, j) <==>
      || (IsNormal(s, k, j) && (j == h ==> RowLeft(s, h, io.drop)))
      || (k == f.block.hash && j == h && !(io.blockLost && f.block.hash in s.blocks))
  {
    OutcomeIs(s, f, h, io);
    DropLeaves(s, h, io.drop, k, j);
    DropLeaves(s, h, io.drop, f.block.hash, j);
    SaveNormal(Drop(s, h, io.drop).store, f.block, io.blockLost, k, j);
  }

  /**
   A SyncOneBlock that writes keeps one NORMAL row per height exactly when the
   row at its height was retired, or is the block itself, or the new block's
   revival is lost as well.
   */
  lemma UniqueIffRetired(s: Store, f: Fetch, h: int, io: SyncIO)
    requires Unique(s) && f.block.number == h && Writes(s, f, h, io)
    requires f.block.hash in s.blocks ==> s.blocks[f.block.hash].height == h
    ensures Unique(Outcome(s, f, h, io).store) <==>
      !RowLeft(s, h, io.drop) || At(s, h) == Some(f.block.hash) || (io.blockLost && f.block.hash in s.blocks)
  {
    var s' := Outcome(s, f, h, io).store;
    forall k, j ensures IsNormal(s', k, j) <==>
      || (IsNormal(s, k, j) && (j == h ==> RowLeft(s, h, io.drop)))
      || (k == f.block.hash && j == h && !(io.blockLost && f.block.hash in s.blocks))
    {
      SyncNormal(s, f, h, io, k, j);
    }
    if RowLeft(s, h, io.drop) {
      assert IsNormal(s', At(s, h).value, h);
      assert IsNormal(s', f.block.hash, h) || (io.blockLost && f.block.hash in s.blocks);
    }
  }

  /*--- Transactions: one height per hash, no lost revival ---*/

  /** After a finished drop, height `h` has NORMAL transactions only if it had some and no NORMAL block. */
  lemma DropClears(s: Store, h: int, io: DropIO, t: Hash)
    requires h > 1 && Finishes(io) && Drop(s, h, io).ok
    ensures IsNormalTx(Drop(s, h, io).store, t, h) <==> IsNormalTx(s, t, h) && At(s, h).None?
  {}

  lemma WriteAllTx(s: Store, b: ChainBlock, io: SyncIO, t: Hash)
    requires WriteAll(s, b, io).verdict == Done
    ensures IsNormalTx(WriteAll(s, b, io).store, t, b.number) <==>
      if t in b.txs then (t in s.txs ==> s.txs[t].height == b.number && t !in io.lost) else IsNormalTx(s, t, b.number)
    ensures t in b.txs ==> !IsNormalTx(s, t, b.number)
  {
    if t in b.txs {
      assert TxWritable(s, t, b.txs[t]) && t in io.reached;
    }
  }

  lemma SyncTxAt(s: Store, f: Fetch, h: int, io: SyncIO, t: Hash)
    requires h > 1 && f.block.number == h && Finishes(io.drop) && Outcome(s, f, h, io).verdict == Done
    ensures IsNormalTx(Outcome(s, f, h, io).store, t, h) <==>
      if t in f.block.txs then (t in s.txs ==> s.txs[t].height == h && t !in io.lost)
      else IsNormalTx(s, t, h) && At(s, h).None?
    ensures t in f.block.txs ==> !(IsNormalTx(s, t, h) && At(s, h).None?)
  {
    OutcomeIs(s, f, h, io);
    DropClears(s, h, io.drop, t);
    WriteAllTx(SaveBlock(Drop(s, h, io.drop).store, f.block, io.blockLost), f.block, io, t);
  }

  /**
   A finished SyncOneBlock leaves at its height exactly the block's
   transactions if and only if none of them already has a row at another
   height or a revival that is lost, and no NORMAL transaction was stranded
   there without a NORMAL block.
   */
  lemma AgreementIff(s: Store, f: Fetch, h: int, io: SyncIO)
    requires h > 1 && f.block.number == h && Finishes(io.drop) && Outcome(s, f, h, io).verdict == Done
    ensures NormalTxs(Outcome(s, f, h, io).store, h) == f.block.txs.Keys <==>
      && (forall t | t in f.block.txs && t in s.txs :: s.txs[t].height == h && t !in io.lost)
      && (At(s, h).Some? || NormalTxs(s, h) == {})
  {
    var s' := Outcome(s, f, h, io).store;
    forall t ensures t in NormalTxs(s', h) <==>
        if t in f.block.txs then (t in s.txs ==> s.txs[t].height == h && t !in io.lost)
        else t in NormalTxs(s, h) && At(s, h).None?
      ensures t in f.block.txs ==> !(t in NormalTxs(s, h) && At(s, h).None?)
    {
      SyncTxAt(s, f, h, io, t);
    }
    assert NormalTxs(s', h) == f.block.txs.Keys <==> forall t :: t in NormalTxs(s', h) <==> t in f.block.txs;
  }

  /*--- A block's revival is not lost ---*/

  lemma LostRevivalStrands(s: Store, u: Universe, f: Fetch, h: int, io: SyncIO, t: Hash)
    requires TxInv(s, u) && Consistent(u) && FetchServed(u, f, h) && h >= 0 && Finishes(io.drop)
    requires Outcome(s, f, h, io).verdict == Done && io.lost == {} && io.blockLost && f.block.hash in s.blocks
    requires t in f.block.txs
    ensures var s' := Outcome(s, f, h, io).store; h > 1 && At(s', h).None? && IsNormalTx(s', t, h)
  {
    var s1 := Drop(s, h, io.drop).store;
    OutcomeIs(s, f, h, io);
    assert h > 1;
    DropKeeps(s, u, h, io.drop);
    DropHomed(s, u, h, io.drop);
    DropAt(s, u, h, io.drop, h);
    assert f.block.hash in s1.blocks by { DropLeaves(s, h, io.drop, f.block.hash, h); }
    WriteAllKeeps(s1, u, f.block, io, h);
    HomeIs(u, f.block, t);
    WriteAllTx(s1, f.block, io, t);
  }

  lemma SavedIsOwned(s: Store, u: Universe, f: Fetch, h: int, io: SyncIO)
    requires TxInv(s, u) && Consistent(u) && FetchServed(u, f, h) && h >= 0 && Finishes(io.drop)
    requires Outcome(s, f, h, io).verdict == Done && !(io.blockLost && f.block.hash in s.blocks)
    ensures Owned(Outcome(s, f, h, io).store, u)
  {
    var s1 := Drop(s, h, io.drop).store;
    OutcomeIs(s, f, h, io);
    assert f.block.hash in s1.blocks <==> f.block.hash in s.blocks by { DropLeaves(s, h, io.drop, f.block.hash, h); }
    ReadyToWrite(s, u, f, h, io);
    PutTxsOwned(PutBlock(s1, f.block), u, f.block, Saved(PutBlock(s1, f.block), io.reached, io.lost));
  }

  lemma NoTxsIsOwned(s: Store, u: Universe, f: Fetch, h: int, io: SyncIO)
    requires TxInv(s, u) && Consistent(u) && FetchServed(u, f, h) && h >= 0 && Finishes(io.drop)
    requires Outcome(s, f, h, io).verdict == Done && io.blockLost && f.block.hash in s.blocks && f.block.txs == map[]
    ensures Owned(Outcome(s, f, h, io).store, u)
  {
    var s1 := Drop(s, h, io.drop).store;
    OutcomeIs(s, f, h, io);
    assert f.block.hash in s1.blocks by { DropLeaves(s, h, io.drop, f.block.hash, h); }
    DropTxInv(s, u, h, io.drop);
    assert Outcome(s, f, h, io).store == s1 by {
      assert WrittenRows(s1, f.block, Saved(s1, io.reached, io.lost)) == map[];
    }
  }

  /**
   A finished SyncOneBlock leaves every NORMAL transaction with its NORMAL
   block exactly when the block's own revival is not lost, or it has no
   transactions. Strays says what becomes of them.
   */
  lemma OwnedIffRevived(s: Store, u: Universe, f: Fetch, h: int, io: SyncIO)
    requires TxInv(s, u) && Consistent(u) && FetchServed(u, f, h) && h >= 0 && Finishes(io.drop)
    requires Outcome(s, f, h, io).verdict == Done && io.lost == {}
    ensures Owned(Outcome(s, f, h, io).store, u) <==>
      !(io.blockLost && f.block.hash in s.blocks) || f.block.txs == map[]
  {
    if !(io.blockLost && f.block.hash in s.blocks) {
      SavedIsOwned(s, u, f, h, io);
    } else if f.block.txs == map[] {
      NoTxsIsOwned(s, u, f, h, io);
    } else {
      var t :| t in f.block.txs;
      LostRevivalStrands(s, u, f, h, io, t);
      assert !InNormalBlock(Outcome(s, f, h, io).store, u, t, h);
    }
  }

  /*--- A started DropBlok saves its changes (its transaction updates are not checked) ---*/

  lemma StrandedIsNotOwned(s: Store, u: Universe, h: int, io: DropIO, t: Hash)
    requires TxInv(s, u) && h > 1 && At(s, h).Some? && !io.blockFails && !io.blockLost
    requires t in io.lost && IsNormalTx(s, t, h)
    ensures !Owned(Drop(s, h, io).store, u)
  {
    var s' := Drop(s, h, io).store;
    DropAt(s, u, h, io, h);
    assert At(s', h).None? by { DropGone(s, h, io); }
    assert IsNormalTx(s', t, h);
    assert !InNormalBlock(s', u, t, h);
  }

  lemma DropGone(s: Store, h: int, io: DropIO)
    requires Unique(s) && h > 1 && At(s, h).Some? && !io.blockFails && !io.blockLost
    ensures At(Drop(s, h, io).store, h).None?
  {
    var s' := Drop(s, h, io).store;
    assert forall k :: IsNormal(s', k, h) ==> IsNormal(s, k, h);
  }

  lemma KeptElsewhere(s: Store, h: int, io: DropIO, t: Hash, j: int)
    requires h > 1 && At(s, h).Some? && !io.blockFails && io.lost * NormalTxs(s, h) == {}
    requires IsNormalTx(Drop(s, h, io).store, t, j)
    ensures IsNormalTx(s, t, j) && j != h
  {
    assert IsNormalTx(s, t, j);
    assert t in NormalTxs(s, j);
    assert t in io.lost && j == h ==> t in io.lost * NormalTxs(s, h);
  }

  lemma KeptIsOwned(s: Store, u: Universe, h: int, io: DropIO, t: Hash, j: int)
    requires TxInv(s, u) && h > 1 && At(s, h).Some? && !io.blockFails && io.lost * NormalTxs(s, h) == {}
    requires IsNormalTx(Drop(s, h, io).store, t, j)
    ensures InNormalBlock(Drop(s, h, io).store, u, t, j)
  {
    KeptElsewhere(s, h, io, t, j);
    DropAt(s, u, h, io, j);
    assert InNormalBlock(s, u, t, j);
  }

  /** Retiring a block keeps the tables in agreement exactly when no transaction update is lost. */
  lemma OwnedIffNothingLost(s: Store, u: Universe, h: int, io: DropIO)
    requires TxInv(s, u) && h > 1 && At(s, h).Some? && !io.blockFails && !io.blockLost
    ensures Owned(Drop(s, h, io).store, u) <==> io.lost * NormalTxs(s, h) == {}
  {
    if io.lost * NormalTxs(s, h) == {} {
      forall t, j | IsNormalTx(Drop(s, h, io).store, t, j) ensures InNormalBlock(Drop(s, h, io).store, u, t, j) {
        KeptIsOwned(s, u, h, io, t, j);
      }
    } else {
      var t :| t in io.lost * NormalTxs(s, h);
      StrandedIsNotOwned(s, u, h, io, t);
    }
  }

  /*--- Runs ---*/

  /** Some run without any lost or half-done write, each fetch from one chain view, ends in `st`. */
  ghost predicate Reachable(st: State, u: Universe) {
    exists trace :: Leads(trace, st, u)
  }

  ghost predicate Leads(trace: seq<Step>, st: State, u: Universe) {
    && ValidRun(Fresh, trace, u) && Run(Fresh, trace) == st
    && forall step | step in trace :: AllSaved(step) && SeesOneChain(step)
  }

  lemma ReachNext(st: State, step: Step, u: Universe)
    requires Reachable(st, u) && Enabled(st, step, u) && AllSaved(step) && SeesOneChain(step)
    ensures Reachable(Next(st, step), u)
  {
    var trace :| Leads(trace, st, u);
    RunSnoc(Fresh, trace, step, u);
    assert Leads(trace + [step], Next(st, step), u);
  }

  lemma {:induction false} ReachCatchUp(st: State, u: Universe, chain: seq<ChainBlock>)
    requires Reachable(st, u) && Following(st, u, chain)
    ensures Reachable(CatchUp(st, u, chain), u)
    decreases Remaining(st, chain)
  {
    if st.cursor < |chain| - 1 {
      IterationKeeps(st, u, chain);
      IterationProgress(st, u, chain);
      FetchValid(u, chain, st.cursor + 1);
      ReachNext(st, Iteration(chain, st.cursor), u);
      ReachCatchUp(Next(st, Iteration(chain, st.cursor)), u, chain);
    }
  }

  /** Catching up with a chain of height N leaves rows above N alone. */
  lemma {:induction false} CatchUpAbove(st: State, u: Universe, chain: seq<ChainBlock>, h: int)
    requires Following(st, u, chain) && h >= |chain|
    ensures At(CatchUp(st, u, chain).store, h) == At(st.store, h)
    decreases Remaining(st, chain)
  {
    if st.cursor < |chain| - 1 {
      IterationKeeps(st, u, chain);
      IterationProgress(st, u, chain);
      IterationRows(st, u, chain);
      CatchUpAbove(Next(st, Iteration(chain, st.cursor)), u, chain, h);
    }
  }

  /** A reachable state the next steps of a scenario can start from: idle, safe and in agreement. */
  ghost predicate Idle(st: State, u: Universe, c: int) {
    Reachable(st, u) && Safe(st, u) && Agree(st, u) && st.target.None? && st.cursor == c
  }

  lemma FreshIdle(u: Universe)
    ensures Idle(Fresh, u, -1)
  {
    assert Leads([], Fresh, u);
    FreshUpright(u);
  }

  lemma ShrinkRows(st: State, u: Universe, height: int, c: int)
    requires StoreInv(st.store, u) && st.cursor == c >= 3 && st.target.None? && height < c
    ensures var st' := Polled(st, height, CleanDrop);
      && st'.cursor == c - 1 && st'.target.None? && At(st'.store, c - 1).None?
      && forall j :: j != c - 1 ==> At(st'.store, j) == At(st.store, j)
  {
    var s' := Drop(st.store, c - 1, CleanDrop).store;
    assert forall j :: j != c - 1 ==> At(s', j) == At(st.store, j) by { DropOthers(st.store, u, c - 1, CleanDrop); }
    assert At(s', c - 1).None? by { DropAt(st.store, u, c - 1, CleanDrop, c - 1); }
  }

  /** The gateway reports height 0: one shrink step. */
  lemma ShrinkOnce(st: State, u: Universe, c: int) returns (st': State)
    requires Consistent(u) && Idle(st, u, c) && c >= 3
    ensures Idle(st', u, c - 1) && At(st'.store, c - 1).None?
    ensures forall j :: j != c - 1 ==> At(st'.store, j) == At(st.store, j)
  {
    var step := Poll(0, CleanDrop);
    st' := Next(st, step);
    ShrinkRows(st, u, 0, c);
    ReachNext(st, step, u);
    assert Safe(st', u) by { PollSafe(st, 0, CleanDrop, u); }
    assert Agree(st', u) by { AgreePoll(st, 0, CleanDrop, u); }
  }

  /** The gateway serves `chain` and the loop catches up with it. */
  lemma GrowTo(st: State, u: Universe, chain: seq<ChainBlock>, c: int) returns (st': State)
    requires Consistent(u) && Followable(u, chain) && Idle(st, u, c) && c < |chain| - 1
    ensures Idle(st', u, |chain| - 1)
    ensures forall j :: 0 <= j < |chain| ==> At(st'.store, j) == Some(chain[j].hash)
    ensures forall j :: j >= |chain| ==> At(st'.store, j) == At(st.store, j)
  {
    var step := Poll(|chain| - 1, CleanDrop);
    var polled := Next(st, step);
    assert polled == State(c, Some(|chain| - 1), st.store);
    ReachNext(st, step, u);
    st' := CatchUp(polled, u, chain);
    ReachCatchUp(polled, u, chain);
    CatchUpEnds(polled, u, chain);
    forall j | 0 <= j < |chain| ensures At(st'.store, j) == Some(chain[j].hash) {
      MatchesBelow(st'.store, u, chain, st'.cursor, j);
    }
    forall j | j >= |chain| ensures At(st'.store, j) == At(st.store, j) {
      CatchUpAbove(polled, u, chain, j);
    }
  }

  /*--- A restart needs rows without holes (the shrink branch leaves one) ---*/

  /** Sync to N, shrink twice and grow back to N-1: the row at N is now stale. */
  lemma StaleRow(u: Universe, chain: seq<ChainBlock>, n: int) returns (st: State)
    requires Consistent(u) && Followable(u, chain) && n == |chain| - 1 >= 4
    ensures Idle(st, u, n - 1) && At(st.store, n).Some? && NoStale(st.store, n - 1)
    ensures At(st.store, n - 1) == Some(chain[n - 1].hash)
  {
    FreshIdle(u);
    assert forall h :: At(Fresh.store, h).None?;
    var st1 := GrowTo(Fresh, u, chain, -1);
    var st2 := ShrinkOnce(st1, u, n);
    var st3 := ShrinkOnce(st2, u, n - 1);
    PrefixFollowable(u, chain, n);
    st := GrowTo(st3, u, chain[..n], n - 2);
    assert At(st.store, n) == At(st3.store, n) == At(st2.store, n) == At(st1.store, n);
    forall h | h > n ensures At(st.store, h).None? {
      assert At(st.store, h) == At(st3.store, h) == At(st2.store, h) == At(st1.store, h) == At(Fresh.store, h);
    }
  }

  /**
   Prefix safety does not survive a restart after shrinks: on every chain of
   height N >= 4 there is a run, with no failure other than one restart, that
   ends with the cursor at N-1 and no NORMAL row at N-2. Dropping the cursor's
   new height instead of the old one leaves the row at N, and MAX(F_block)-1
   jumps over the hole.
   */
  lemma RestartAfterShrinkLosesHeight(u: Universe, chain: seq<ChainBlock>) returns (st: State)
    requires Consistent(u) && Followable(u, chain) && |chain| >= 5
    ensures Reachable(st, u) && st.cursor == |chain| - 2 && At(st.store, st.cursor - 1).None?
    ensures !Prefix(st.store, st.cursor)
    ensures At(st.store, st.cursor) == Some(chain[st.cursor].hash) && OneTooHigh(st, u)
  {
    var n := |chain| - 1;
    var st1 := StaleRow(u, chain, n);
    var st2 := ShrinkOnce(st1, u, n - 1);
    MaxIs(st2.store, u, n);
    ReachNext(st2, Restart, u);
    st := Next(st2, Restart);
    assert st2 == Lowered(st);
  }

  ghost function Lowered(st: State): State {
    State(st.cursor - 1, None, st.store)
  }

  /** The restart from MAX-1 went one height too far: from one below, everything would be in order. */
  ghost predicate OneTooHigh(st: State, u: Universe) {
    && st.target.None? && st.cursor == MaxHeight(st.store) - 1
    && Safe(Lowered(st), u) && Agree(Lowered(st), u)
  }

  /** Sync to N, shrink three times and grow back to N-2: the row at N is stale and N-1 is missing. */
  lemma StaleTop(u: Universe, chain: seq<ChainBlock>, n: int) returns (st: State)
    requires Consistent(u) && Followable(u, chain) && n == |chain| - 1 >= 5
    ensures Idle(st, u, n - 2) && At(st.store, n) == Some(chain[n].hash)
    ensures At(st.store, n - 2) == Some(chain[n - 2].hash) && forall h :: h > n ==> At(st.store, h).None?
  {
    FreshIdle(u);
    assert forall h :: At(Fresh.store, h).None?;
    var st1 := GrowTo(Fresh, u, chain, -1);
    var st2 := ShrinkOnce(st1, u, n);
    var st3 := ShrinkOnce(st2, u, n - 1);
    var st4 := ShrinkOnce(st3, u, n - 2);
    PrefixFollowable(u, chain, n - 1);
    st := GrowTo(st4, u, chain[..n - 1], n - 3);
    forall h | h >= n ensures At(st.store, h) == At(st1.store, h) {
      assert At(st.store, h) == At(st4.store, h) == At(st3.store, h) == At(st2.store, h);
    }
    forall h | h > n ensures At(st.store, h).None? {
      assert At(st1.store, h) == At(Fresh.store, h);
    }
  }

  /** A SyncOneBlock that stops before the first transaction. */
  const Half := SyncIO(CleanDrop, false, false, false, {}, {}, false)

  lemma HalfWritten(st: State, u: Universe, chain: seq<ChainBlock>)
    requires InOrder(st, u, chain) && st.cursor < |chain| - 1
    requires OnChain(st.store, chain, st.cursor) && chain[st.cursor + 1].txs != map[]
    ensures var r := Outcome(st.store, FetchAt(chain, st.cursor + 1), st.cursor + 1, Half);
      && r.verdict == Stopped && At(r.store, st.cursor + 1) == Some(chain[st.cursor + 1].hash)
      && NormalTxs(r.store, st.cursor + 1) == {}
  {
    var h := st.cursor + 1;
    var f, b := FetchAt(chain, h), chain[h];
    var s1 := Drop(st.store, h, CleanDrop).store;
    var s2 := PutBlock(s1, b);
    FetchValid(u, chain, h);
    assert At(s2, h) == Some(b.hash) && NormalTxs(s2, h) == {} by { ReadyToWrite(st.store, u, f, h, Half); }
    assert Outcome(st.store, f, h, Half) == WriteAll(s2, b, Half) by {
      WritesOnChain(st, u, chain, Half);
      WritesAll(st.store, f, h, Half);
    }
    StopsEmpty(s2, b);
  }

  lemma StopsEmpty(s: Store, b: ChainBlock)
    requires b.txs != map[]
    ensures WriteAll(s, b, Half) == Synced(s, Stopped)
  {
    assert Saved(s, {}, {}) == {};
    PutTxsNone(s, b);
    var t :| t in b.txs;
  }

  /**
   Agreement and fee conservation do not survive such a restart either: on every
   chain of height N >= 5 whose block N-1 has transactions there is a run, with
   no failure other than one stop inside WriteTransactions and one restart, that
   ends with the cursor at N-1 on an intact prefix, the chain's block NORMAL
   there, and none of its transactions. F_txn and F_fees are then wrong.
   */
  lemma RestartLosesTransactions(u: Universe, chain: seq<ChainBlock>) returns (st: State)
    requires Consistent(u) && Followable(u, chain) && |chain| >= 6 && chain[|chain| - 2].txs != map[]
    ensures Reachable(st, u) && st.cursor == |chain| - 2 && Safe(st, u)
    ensures At(st.store, st.cursor) == Some(chain[st.cursor].hash) && NormalTxs(st.store, st.cursor) == {}
    ensures !FeesAgree(st.store, st.cursor) && OneTooHigh(st, u)
  {
    var n := |chain| - 1;
    var st1 := StaleTop(u, chain, n);
    var st2 := Next(st1, Poll(n, CleanDrop));
    assert st2 == State(n - 2, Some(n), st1.store);
    ReachNext(st1, Poll(n, CleanDrop), u);
    var f := FetchAt(chain, n - 1);
    var st3 := StopAtTransactions(st2, u, chain);
    ReachNext(st2, Sync(f, Half), u);
    MaxIs(st3.store, u, n);
    ReachNext(st3, Restart, u);
    st := Next(st3, Restart);
    assert CountsExact(st3.store, u) by { ReachBooked(st3, u); }
    WrongCount(st3.store, u, chain[n - 1]);
    RestartOver(st3, u, n, chain);
    assert Lowered(st) == State(st3.cursor, None, st3.store);
  }

  lemma ReachBooked(st: State, u: Universe)
    requires Reachable(st, u) && TxsConsistent(u)
    ensures Booked(st.store, u)
  {
    var trace :| Leads(trace, st, u);
    BookedRun(Fresh, trace, u);
  }

  lemma StopAtTransactions(st: State, u: Universe, chain: seq<ChainBlock>) returns (st': State)
    requires InOrder(st, u, chain) && st.cursor < |chain| - 1 && st.target.Some?
    requires OnChain(st.store, chain, st.cursor) && chain[st.cursor + 1].txs != map[]
    ensures var h := st.cursor + 1;
      var step := Sync(FetchAt(chain, h), Half);
      && Enabled(st, step, u) && SeesOneChain(step) && st' == Next(st, step)
      && st'.cursor == st.cursor && Safe(st', u) && Agree(st', u)
      && At(st'.store, h) == Some(chain[h].hash) && NormalTxs(st'.store, h) == {}
      && forall j :: j != h ==> At(st'.store, j) == At(st.store, j)
  {
    var h := st.cursor + 1;
    var f := FetchAt(chain, h);
    FetchValid(u, chain, h);
    st' := Climbed(st, f, Half);
    assert Safe(st', u) by { SyncSafe(st, f, Half, u); }
    assert Agree(st', u) by { AgreeSync(st, f, Half, u); }
    HalfWritten(st, u, chain);
    SyncOthers(st.store, u, f, h, Half);
  }

  lemma RestartOver(st: State, u: Universe, n: int, chain: seq<ChainBlock>)
    requires Safe(st, u) && BlocksConsistent(u) && ValidChain(u, chain) && MaxHeight(st.store) == n >= 2 && st.cursor == n - 2
    requires n < |chain| && At(st.store, n - 1) == Some(chain[n - 1].hash) && At(st.store, n - 2) == Some(chain[n - 2].hash)
    ensures Safe(Restarted(st), u)
  {
    assert Linked(st.store, n - 1) by {
      LinkedByFetch(st.store, u, FetchAt(chain, n - 1), n - 1);
    }
    assert Prefix(st.store, n - 1);
    RestartLoose(st, u);
  }

  lemma WrongCount(s: Store, u: Universe, b: ChainBlock)
    requires At(s, b.number) == Some(b.hash) && NormalTxs(s, b.number) == {} && b.txs != map[]
    requires CountsExact(s, u) && Served(u, b)
    ensures !FeesAgree(s, b.number)
  {}

  /*--- The inner loop needs its target on the chain ---*/

  /**
   A climb under way when the chain shrinks below its target never ends: on
   every followable chain, the climb to its top is reachable, and against any
   shorter chain no number of passes ends it, so the shrink is never polled.
   */
  lemma StuckRun(u: Universe, chain: seq<ChainBlock>, m: nat) returns (st: State)
    requires Consistent(u) && Followable(u, chain) && m < |chain|
    ensures Reachable(st, u) && Climbing(st, u, chain[..m])
    ensures forall n: nat :: Passes(st, u, chain[..m], n).target.Some?
  {
    FreshIdle(u);
    st := Next(Fresh, Poll(|chain| - 1, CleanDrop));
    assert st == State(-1, Some(|chain| - 1), Fresh.store);
    ReachNext(Fresh, Poll(|chain| - 1, CleanDrop), u);
    PrefixFollowable(u, chain, m);
    forall n: nat ensures Passes(st, u, chain[..m], n).target.Some? {
      NeverEnds(st, u, chain[..m], n);
    }
  }

  /** `n` polls that all report `height`. */
  ghost function Polls(st: State, height: int, n: nat): State
    decreases n
  {
    if n == 0 then st else Polls(Polled(st, height, CleanDrop), height, n - 1)
  }

  /** An idle follower above a chain of height N >= 2 shrinks to it and comes to rest with no NORMAL row at N. */
  lemma {:induction false} ShrinkLeavesHole(st: State, u: Universe, height: int)
    requires Base(st, u) && st.target.None? && 2 <= height < st.cursor
    ensures var end := Polls(st, height, st.cursor - height);
      end.cursor == height && end.target.None? && At(end.store, height).None?
    decreases st.cursor
  {
    var st' := Polled(st, height, CleanDrop);
    ShrinkRows(st, u, height, st.cursor);
    PollBase(st, height, CleanDrop, u);
    assert Polls(st, height, st.cursor - height) == Polls(st', height, st'.cursor - height);
    if height < st'.cursor {
      ShrinkLeavesHole(st', u, height);
    }
  }

  /*--- Every block must be writable ---*/

  /** Rows only ever stem from blocks and transactions with a hash. */
  ghost predicate Inserted(s: Store) {
    && (forall k | k in s.blocks :: k != NoHash && s.blocks[k].parentHash != NoHash)
    && NoHash !in s.txs
  }

  lemma DropInserted(s: Store, h: int, io: DropIO)
    requires Inserted(s)
    ensures Inserted(Drop(s, h, io).store)
  {}

  lemma SaveInserted(s: Store, b: ChainBlock, lost: bool)
    requires Inserted(s) && BlockWritable(s, b)
    ensures Inserted(SaveBlock(s, b, lost))
  {}

  lemma WriteInserted(s: Store, b: ChainBlock, io: SyncIO)
    requires Inserted(s)
    ensures Inserted(WriteAll(s, b, io).store)
  {}

  lemma SyncInserted(s: Store, f: Fetch, h: int, io: SyncIO)
    requires Inserted(s)
    ensures Inserted(Outcome(s, f, h, io).store)
  {
    OutcomeIs(s, f, h, io);
    DropInserted(s, h, io.drop);
    if Writes(s, f, h, io) {
      SaveInserted(Drop(s, h, io.drop).store, f.block, io.blockLost);
      WriteInserted(SaveBlock(Drop(s, h, io.drop).store, f.block, io.blockLost), f.block, io);
    }
  }

  /** A block that cannot be stored is never finished. */
  lemma UnwritableNotDone(s: Store, u: Universe, f: Fetch, h: int, io: SyncIO)
    requires Inserted(s) && RowsServed(s, u) && TxRowsServed(s, u) && TxsConsistent(u)
    requires Answered(u, f, h, io) && (io.readFails || !Writable(f.block))
    ensures Outcome(s, f, h, io).verdict != Done
  {
    OutcomeIs(s, f, h, io);
    if Writes(s, f, h, io) {
      var s1 := Drop(s, h, io.drop).store;
      assert TxRowsServed(s1, u) by { DropTxRows(s, u, h, io.drop); }
      assert RowsServed(s1, u) by { DropServed(s, u, h, io.drop); }
      assert Inserted(s1) by { DropInserted(s, h, io.drop); }
      UnwritableFails(s1, SaveBlock(s1, f.block, io.blockLost), u, f.block);
    }
  }

  lemma UnwritableFails(s1: Store, s2: Store, u: Universe, b: ChainBlock)
    requires Inserted(s1) && RowsServed(s1, u) && TxRowsServed(s1, u) && TxsConsistent(u) && s2.txs == s1.txs
    requires Served(u, b) && !Writable(b) && BlockWritable(s1, b)
    ensures !AllWritable(s2, b)
  {
    assert b.hash in s1.blocks ==> RowServed(s1.blocks[b.hash], u, b.hash);
    var t :| t in b.txs && !(t != NoHash && Typed(b.txs[t]));
    HomeIs(u, b, t);
    assert t in s1.txs ==> DataServed(s1.txs[t], u, t);
    assert !TxWritable(s2, t, b.txs[t]);
  }

  /** The cursor is below `h` and no row is above it. */
  ghost predicate Held(st: State, u: Universe, h: int) {
    && Loose(st, u) && TxRowsServed(st.store, u) && Inserted(st.store)
    && st.cursor < h && RowsUpTo(st.store, h)
  }

  ghost predicate Unwritable(u: Universe, h: int) {
    forall k | k in u.blocks && u.blocks[k].number == h :: !Writable(u.blocks[k])
  }

  lemma HeldCursor(st: State, f: Fetch, io: SyncIO, u: Universe, h: int)
    requires Held(st, u, h) && Consistent(u) && Unwritable(u, h) && Answered(u, f, st.cursor + 1, io)
    ensures Climbed(st, f, io).cursor < h
  {
    if st.cursor + 1 == h {
      UnwritableNotDone(st.store, u, f, st.cursor + 1, io);
    }
  }

  lemma HeldSync(st: State, f: Fetch, io: SyncIO, u: Universe, h: int)
    requires Held(st, u, h) && Consistent(u) && Unwritable(u, h) && st.target.Some? && Answered(u, f, st.cursor + 1, io)
    ensures Held(Climbed(st, f, io), u, h)
  {
    var st' := Climbed(st, f, io);
    assert st'.store == Outcome(st.store, f, st.cursor + 1, io).store;
    assert Loose(st', u) by { SyncLoose(st, f, io, u); }
    assert TxRowsServed(st'.store, u) by { SyncTxRows(st.store, u, f, st.cursor + 1, io); }
    assert Inserted(st'.store) by { SyncInserted(st.store, f, st.cursor + 1, io); }
    assert RowsUpTo(st'.store, h) by { SyncUpTo(st.store, u, f, st.cursor + 1, io, h); }
    HeldCursor(st, f, io, u, h);
  }

  lemma HeldPoll(st: State, height: int, drop: DropIO, u: Universe, h: int)
    requires Held(st, u, h) && st.target.None? && height >= 0
    ensures Held(Polled(st, height, drop), u, h)
  {
    PollLoose(st, height, drop, u);
    if height < st.cursor {
      HeldShrunk(st, drop, u, h);
    }
  }

  lemma HeldShrunk(st: State, drop: DropIO, u: Universe, h: int)
    requires TxRowsServed(st.store, u) && Inserted(st.store) && RowsUpTo(st.store, h)
    ensures var s' := Shrunk(st, drop).store; TxRowsServed(s', u) && Inserted(s') && RowsUpTo(s', h)
  {
    DropTxRows(st.store, u, st.cursor - 1, drop);
    DropInserted(st.store, st.cursor - 1, drop);
    DropUpTo(st.store, st.cursor - 1, drop, h);
  }

  lemma HeldRestart(st: State, u: Universe, h: int)
    requires Held(st, u, h) && BlocksConsistent(u) && h >= 0
    ensures Held(Restarted(st), u, h)
  {
    MaxExists(st.store, u);
    assert forall j :: At(st.store, j).Some? ==> j <= h;
  }

  lemma {:induction false} HeldRun(st: State, trace: seq<Step>, u: Universe, h: int)
    requires Held(st, u, h) && Consistent(u) && Unwritable(u, h) && h >= 0 && ValidRun(st, trace, u)
    ensures Held(Run(st, trace), u, h)
    decreases |trace|
  {
    if trace != [] {
      var step := trace[0];
      if step.Poll? {
        HeldPoll(st, step.height, step.drop, u, h);
      } else if step.Sync? {
        HeldSync(st, step.fetch, step.io, u, h);
      } else if step.Restart? {
        HeldRestart(st, u, h);
      }
      HeldRun(Next(st, step), trace[1..], u, h);
    }
  }

  /**
   The follower never passes a height at which every branch has a block it
   cannot store, such as one with a mortgage call of fewer than 64 characters:
   in every run whatsoever, however often it is restarted, the cursor stays
   below. On chains of writable blocks it always gets through (Converges).
   */
  lemma NeverPassesUnwritable(trace: seq<Step>, u: Universe, h: int)
    requires Consistent(u) && Unwritable(u, h) && h >= 0 && ValidRun(Fresh, trace, u)
    ensures Run(Fresh, trace).cursor < h
  {
    HeldRun(Fresh, trace, u, h);
  }
}
