/**
 How long damage lasts: while the follower stays above a block it agrees with
 the chain on, nothing at or below that block ever changes.
 */
module Persistence {
  import opened Common
  import opened Chain
  import opened Tables
  import opened Follower
  import opened Restarts
  import opened Runs
  import opened Agreement
  import opened Convergence
  import opened Strays
  import opened Limits

  /*--- Frozen heights ---*/

  /** The follower stands at height `p` or above and its row at `p` is the block `k`. */
  ghost predicate Anchored(st: State, u: Universe, p: int, k: Hash) {
    Base(st, u) && Homed(st.store, u) && 0 <= p <= st.cursor && At(st.store, p) == Some(k)
  }

  /**
   The step gives the follower no reason to go below `p`: the gateway reports
   nothing below the cursor, its chain still has `k` at `p`, and a restart finds
   MAX above `p`.
   */
  ghost predicate StaysUp(st: State, step: Step, p: int, k: Hash) {
    && DropSaved(step)
    && (step.Poll? ==> step.height >= st.cursor)
    && (step.Sync? && !step.io.readFails && st.cursor == p ==> step.fetch.parent.hash == k)
    && (step.Restart? ==> MaxHeight(st.store) > p)
  }

  ghost predicate RunStaysUp(st: State, trace: seq<Step>, p: int, k: Hash)
    decreases |trace|
  {
    trace == [] || (StaysUp(st, trace[0], p, k) && RunStaysUp(Next(st, trace[0]), trace[1..], p, k))
  }

  /** Blocks and NORMAL transactions at all heights up to `p` are the same. */
  ghost predicate Frozen(s: Store, s': Store, p: int) {
    forall h :: h <= p ==> SameAt(s, s', h)
  }

  ghost predicate SameAt(s: Store, s': Store, h: int) {
    At(s', h) == At(s, h) && NormalTxs(s', h) == NormalTxs(s, h)
  }

  lemma FrozenSync(st: State, f: Fetch, io: SyncIO, u: Universe, p: int)
    requires Base(st, u) && Homed(st.store, u) && Consistent(u) && Answered(u, f, st.cursor + 1, io)
    requires !io.drop.blockLost && p <= st.cursor
    ensures Frozen(st.store, Outcome(st.store, f, st.cursor + 1, io).store, p)
  {
    var s' := Outcome(st.store, f, st.cursor + 1, io).store;
    forall h | h <= p ensures SameAt(st.store, s', h) {
      SyncElsewhere(st.store, u, f, st.cursor + 1, io, h);
      SyncTxsElsewhere(st.store, u, f, st.cursor + 1, io, h);
    }
  }

  /** Over the agreed block no walk back happens. */
  lemma NoWalkBelow(s: Store, u: Universe, f: Fetch, p: int, k: Hash, io: SyncIO)
    requires StoreInv(s, u) && BlocksConsistent(u) && Answered(u, f, p + 1, io) && p >= 0 && !io.drop.blockLost
    requires At(s, p) == Some(k) && (io.readFails || f.parent.hash == k)
    ensures Outcome(s, f, p + 1, io).verdict != WalkBack
  {
    SyncRows(s, u, f, p + 1, io);
  }

  lemma AnchoredSync(st: State, f: Fetch, io: SyncIO, u: Universe, p: int, k: Hash)
    requires Anchored(st, u, p, k) && Consistent(u) && st.target.Some? && Answered(u, f, st.cursor + 1, io)
    requires StaysUp(st, Sync(f, io), p, k)
    ensures var st' := Climbed(st, f, io); Anchored(st', u, p, k) && Frozen(st.store, st'.store, p)
  {
    var st' := Climbed(st, f, io);
    var r := Outcome(st.store, f, st.cursor + 1, io);
    assert st'.store == r.store && st'.cursor == st.cursor + Stride(r.verdict);
    assert Base(st', u) by { SyncBase(st, f, io, u); }
    assert Homed(r.store, u) by { SyncHomed(st.store, u, f, st.cursor + 1, io); }
    assert Frozen(st.store, r.store, p) by { FrozenSync(st, f, io, u, p); }
    assert SameAt(st.store, r.store, p);
    if st.cursor == p { NoWalkBelow(st.store, u, f, p, k, io); }
  }

  lemma FrozenTrans(s: Store, s': Store, s'': Store, p: int)
    requires Frozen(s, s', p) && Frozen(s', s'', p)
    ensures Frozen(s, s'', p)
  {
    forall h | h <= p ensures SameAt(s, s'', h) {
      assert SameAt(s, s', h) && SameAt(s', s'', h);
    }
  }

  /**
   What lies at or below an agreed block is never looked at again: over every
   run that stays up, with any failures, lost revivals, reorganisations above
   `p` and restarts that find MAX above `p`, all blocks and NORMAL transactions
   at heights up to `p`, right or wrong, present or missing, stay as they are.
   */
  lemma {:induction false} FrozenRun(st: State, trace: seq<Step>, u: Universe, p: int, k: Hash)
    requires Anchored(st, u, p, k) && Consistent(u) && ValidRun(st, trace, u) && RunStaysUp(st, trace, p, k)
    ensures Anchored(Run(st, trace), u, p, k) && Frozen(st.store, Run(st, trace).store, p)
    decreases |trace|
  {
    if trace != [] {
      var step := trace[0];
      var st' := Next(st, step);
      if step.Sync? {
        AnchoredSync(st, step.fetch, step.io, u, p, k);
      } else if step.Restart? {
        RestartLoose(st, u);
      }
      FrozenRun(st', trace[1..], u, p, k);
      FrozenTrans(st.store, st'.store, Run(st, trace).store, p);
    }
  }

  /*--- The damage a restart does ---*/

  lemma ReachAnchored(st: State, u: Universe, k: Hash)
    requires Reachable(st, u) && Consistent(u) && st.cursor >= 0 && At(st.store, st.cursor) == Some(k)
    ensures Anchored(st, u, st.cursor, k)
  {
    var trace :| Leads(trace, st, u);
    BaseRun(Fresh, trace, u);
    BookedRun(Fresh, trace, u);
  }

  /**
   The height a restart skipped stays missing over every continuation that
   stays up: on every chain of height N >= 4, from a reachable state.
   */
  lemma LostHeightStaysLost(u: Universe, chain: seq<ChainBlock>) returns (st: State)
    requires Consistent(u) && Followable(u, chain) && |chain| >= 5
    ensures Reachable(st, u) && st.cursor == |chain| - 2 && OneTooHigh(st, u)
    ensures forall trace | ValidRun(st, trace, u) && RunStaysUp(st, trace, |chain| - 2, chain[|chain| - 2].hash) ::
      At(Run(st, trace).store, |chain| - 3).None?
  {
    st := RestartAfterShrinkLosesHeight(u, chain);
    var p, k := |chain| - 2, chain[|chain| - 2].hash;
    ReachAnchored(st, u, k);
    forall trace | ValidRun(st, trace, u) && RunStaysUp(st, trace, p, k) ensures At(Run(st, trace).store, p - 1).None? {
      FrozenRun(st, trace, u, p, k);
      assert SameAt(st.store, Run(st, trace).store, p - 1);
    }
  }

  /**
   So do the transactions a restart lost: on every chain of height N >= 5 whose
   block N-1 has some, from a reachable state.
   */
  lemma LostTransactionsStayLost(u: Universe, chain: seq<ChainBlock>) returns (st: State)
    requires Consistent(u) && Followable(u, chain) && |chain| >= 6 && chain[|chain| - 2].txs != map[]
    ensures Reachable(st, u) && st.cursor == |chain| - 2 && OneTooHigh(st, u)
    ensures forall trace | ValidRun(st, trace, u) && RunStaysUp(st, trace, |chain| - 2, chain[|chain| - 2].hash) ::
      var s := Run(st, trace).store;
      At(s, |chain| - 2) == Some(chain[|chain| - 2].hash) && NormalTxs(s, |chain| - 2) == {}
  {
    st := RestartLosesTransactions(u, chain);
    var p, k := |chain| - 2, chain[|chain| - 2].hash;
    ReachAnchored(st, u, k);
    forall trace | ValidRun(st, trace, u) && RunStaysUp(st, trace, p, k)
      ensures var s := Run(st, trace).store; At(s, p) == Some(k) && NormalTxs(s, p) == {}
    {
      FrozenRun(st, trace, u, p, k);
      assert SameAt(st.store, Run(st, trace).store, p);
    }
  }

  /*--- ... and what mends it ---*/

  lemma FrozenPrefix(s: Store, s': Store, u: Universe, p: int)
    requires StoreInv(s, u) && StoreInv(s', u) && Prefix(s, p - 1) && Frozen(s, s', p)
    ensures Prefix(s', p - 1)
  {
    forall h | h <= p - 1 ensures At(s', h) == At(s, h) {
      assert SameAt(s, s', h);
    }
    PrefixSame(s, s', u, p - 1);
  }

  lemma FrozenComplete(s: Store, s': Store, u: Universe, p: int)
    requires Complete(s, u, p - 1) && Frozen(s, s', p)
    ensures Complete(s', u, p - 1)
  {
    forall h | h <= p - 1 ensures CompleteAt(s', u, h) {
      assert SameAt(s, s', h) && CompleteAt(s, u, h);
      forall t | InNormalBlock(s', u, t, h) ensures IsNormalTx(s', t, h) {
        assert InNormalBlock(s, u, t, h);
        assert t in NormalTxs(s, h);
        assert t in NormalTxs(s', h);
      }
    }
  }

  lemma MendsInOrder(st: State, now: State, u: Universe, chain: seq<ChainBlock>, p: int)
    requires OneTooHigh(st, u) && st.cursor == p >= 0 && Frozen(st.store, now.store, p)
    requires Sound(now, u) && Consistent(u) && Followable(u, chain) && MaxHeight(now.store) == p
    ensures InOrder(Restarted(now), u, chain)
  {
    RestartLoose(now, u);
    FrozenPrefix(st.store, now.store, u, p);
    FrozenComplete(st.store, now.store, u, p);
  }

  /**
   The loss lasts no longer: whatever the continuation, the first restart that
   finds MAX at `p` itself puts the cursor below it, and the next climb leaves
   the tables equal to the chain, transactions included.
   */
  lemma LowRestartMends(st: State, trace: seq<Step>, u: Universe, chain: seq<ChainBlock>, p: int, k: Hash)
    requires Anchored(st, u, p, k) && st.cursor == p && OneTooHigh(st, u)
    requires Consistent(u) && Followable(u, chain) && p < |chain|
    requires ValidRun(st, trace, u) && RunStaysUp(st, trace, p, k) && forall step | step in trace :: Reliable(step)
    requires MaxHeight(Run(st, trace).store) == p
    ensures var polled := Polled(Restarted(Run(st, trace)), |chain| - 1, CleanDrop);
      Following(polled, u, chain) && Mirrors(CatchUp(polled, u, chain), chain)
  {
    var now := Run(st, trace);
    FrozenRun(st, trace, u, p, k);
    assert Sound(now, u) by { SoundRun(st, trace, u); }
    MendsInOrder(st, now, u, chain, p);
    var restarted := Restarted(now);
    PollFollows(restarted, u, chain);
    var polled := Polled(restarted, |chain| - 1, CleanDrop);
    assert polled.cursor == p - 1;
    Converges(polled, u, chain);
  }

  lemma DropTop(s: Store, u: Universe, p: int)
    requires StoreInv(s, u) && BlocksConsistent(u) && p >= 1 && MaxHeight(s) == p + 1 && At(s, p).Some?
    ensures MaxHeight(Drop(s, p + 1, CleanDrop).store) == p
  {
    MaxExists(s, u);
    DropOthers(s, u, p + 1, CleanDrop);
    DropAt(s, u, p + 1, CleanDrop, p + 1);
    DropServed(s, u, p + 1, CleanDrop);
    MaxIs(Drop(s, p + 1, CleanDrop).store, u, p);
  }

  /** Such a restart does happen: the process is killed right after the next DropBlok, and started again. */
  lemma KilledAfterDrop(st: State, u: Universe, p: int, k: Hash, height: int)
    requires Anchored(st, u, p, k) && BlocksConsistent(u) && OneTooHigh(st, u) && st.cursor == p >= 1 && height > p
    ensures var trace := [Poll(height, CleanDrop), Sync(Fetch(NoBlock, NoBlock), Missing)];
      && ValidRun(st, trace, u) && RunStaysUp(st, trace, p, k) && (forall step | step in trace :: Reliable(step))
      && MaxHeight(Run(st, trace).store) == p
  {
    var poll, sync := Poll(height, CleanDrop), Sync(Fetch(NoBlock, NoBlock), Missing);
    assert Next(st, poll) == State(p, Some(height), st.store);
    MissingDrops(st.store, p + 1);
    DropTop(st.store, u, p);
    RunTwo(st, poll, sync, u);
    StaysUpTwo(st, poll, sync, p, k);
  }

  lemma StaysUpTwo(st: State, a: Step, b: Step, p: int, k: Hash)
    requires StaysUp(st, a, p, k) && StaysUp(Next(st, a), b, p, k)
    ensures RunStaysUp(st, [a, b], p, k)
  {
    assert [a, b][1..] == [b] && [b][1..] == [];
    assert RunStaysUp(Next(st, a), [b], p, k);
  }

  lemma RunTwo(st: State, a: Step, b: Step, u: Universe)
    requires Enabled(st, a, u) && Enabled(Next(st, a), b, u)
    ensures ValidRun(st, [a, b], u) && Run(st, [a, b]) == Next(Next(st, a), b)
  {
    RunSnoc(st, [], a, u);
    RunSnoc(st, [a], b, u);
    assert [] + [a] == [a] && [a] + [b] == [a, b];
  }

  lemma MissingDrops(s: Store, h: int)
    ensures Outcome(s, Fetch(NoBlock, NoBlock), h, Missing) == Synced(Drop(s, h, CleanDrop).store, Stopped)
  {
    OutcomeIs(s, Fetch(NoBlock, NoBlock), h, Missing);
  }

  /*--- A two-view read ---*/

  /** Some run ends in `st`. */
  ghost predicate Arises(st: State, u: Universe) {
    exists trace :: ValidRun(Fresh, trace, u) && Run(Fresh, trace) == st
  }

  lemma ReachArises(st: State, u: Universe)
    requires Reachable(st, u)
    ensures Arises(st, u)
  {
    var trace :| Leads(trace, st, u);
  }

  lemma ArisesNext(st: State, step: Step, u: Universe)
    requires Arises(st, u) && Enabled(st, step, u)
    ensures Arises(Next(st, step), u)
  {
    var trace :| ValidRun(Fresh, trace, u) && Run(Fresh, trace) == st;
    RunSnoc(Fresh, trace, step, u);
  }

  lemma SoundNotBlocked(s: Store, u: Universe, b: ChainBlock)
    requires TxInv(s, u)
    ensures !Blocked(s, b)
  {
    forall t | IsNormalTx(s, t, b.number) ensures At(s, b.number).Some? {
      assert InNormalBlock(s, u, t, b.number);
    }
  }

  lemma TwoViewSync(st: State, u: Universe, f: Fetch, c: int)
    requires Base(st, u) && TxInv(st.store, u) && Consistent(u) && st.cursor == c >= 0 && st.target == Some(c + 1)
    requires FetchServed(u, f, c + 1) && Writable(f.block) && At(st.store, c) == Some(f.parent.hash)
    requires f.block.parentHash != f.parent.hash
    ensures var st' := Climbed(st, f, Clean(f.block));
      && st'.cursor == c + 1 && Anchored(st', u, c + 1, f.block.hash)
      && At(st'.store, c) == Some(f.parent.hash) && !Linked(st'.store, c + 1)
  {
    var io := Clean(f.block);
    var r := Outcome(st.store, f, c + 1, io);
    var st' := Climbed(st, f, io);
    assert io == Try(f.block, f.block.txs.Keys);
    SoundNotBlocked(st.store, u, f.block);
    TryVerdict(st.store, u, f, c + 1, f.block.txs.Keys);
    TryRow(st.store, u, f, c + 1, f.block.txs.Keys);
    assert At(r.store, c) == At(st.store, c) by { SyncElsewhere(st.store, u, f, c + 1, io, c); }
    LinkedIs(r.store, u, c + 1, f.block, f.parent.hash);
    assert Base(st', u) by { SyncBase(st, f, io, u); }
    assert Homed(r.store, u) by { SyncHomed(st.store, u, f, c + 1, io); }
  }

  /** An unlinked row stays unlinked while the follower stays above it. */
  lemma UnlinkedStays(st: State, trace: seq<Step>, u: Universe, b: ChainBlock, parent: Hash)
    requires Consistent(u) && Served(u, b) && Anchored(st, u, b.number, b.hash)
    requires At(st.store, b.number - 1) == Some(parent) && parent != b.parentHash
    requires ValidRun(st, trace, u) && RunStaysUp(st, trace, b.number, b.hash)
    ensures !Linked(Run(st, trace).store, b.number)
  {
    var s' := Run(st, trace).store;
    FrozenRun(st, trace, u, b.number, b.hash);
    assert SameAt(st.store, s', b.number - 1) && SameAt(st.store, s', b.number);
    LinkedIs(s', u, b.number, b, parent);
  }

  /**
   A reorganisation between the two reads is never repaired: for every two
   chains that differ at height c, there is a run, with one fetch that takes the
   block from one and the parent from the other, after which the row at c+1 does
   not fit on the row at c, and it never will while the follower stays up.
   */
  lemma TwoViewRun(u: Universe, before: seq<ChainBlock>, after: seq<ChainBlock>, c: int) returns (st: State)
    requires Consistent(u) && Followable(u, before) && Followable(u, after)
    requires |before| == c + 1 && |after| == c + 2 && c >= 0 && before[c].hash != after[c].hash
    ensures Arises(st, u) && st.cursor == c + 1 && !Linked(st.store, c + 1)
    ensures forall trace | ValidRun(st, trace, u) && RunStaysUp(st, trace, c + 1, after[c + 1].hash) ::
      !Linked(Run(st, trace).store, c + 1)
  {
    FreshIdle(u);
    var st1 := GrowTo(Fresh, u, before, -1);
    var st2 := Next(st1, Poll(c + 1, CleanDrop));
    assert st2 == State(c, Some(c + 1), st1.store);
    ReachArises(st1, u);
    ArisesNext(st1, Poll(c + 1, CleanDrop), u);
    var f := Fetch(after[c + 1], before[c]);
    TwoViewSync(st2, u, f, c);
    ArisesNext(st2, Sync(f, Clean(f.block)), u);
    st := Next(st2, Sync(f, Clean(f.block)));
    forall trace | ValidRun(st, trace, u) && RunStaysUp(st, trace, c + 1, after[c + 1].hash)
      ensures !Linked(Run(st, trace).store, c + 1)
    {
      UnlinkedStays(st, trace, u, after[c + 1], before[c].hash);
    }
  }

  /*--- A lost retirement ---*/

  /** DropBlok goes through, but the COMMIT of the block row is lost. */
  const LostDrop := DropIO(false, true, {}, false)

  lemma DoubledSync(s: Store, u: Universe, f: Fetch, h: int)
    requires StoreInv(s, u) && BlocksConsistent(u) && FetchServed(u, f, h) && h > 1 && Writable(f.block)
    requires At(s, h - 1) == Some(f.parent.hash) && At(s, h).Some? && At(s, h) != Some(f.block.hash)
    ensures !Unique(Outcome(s, f, h, Clean(f.block).(drop := LostDrop)).store)
  {
    var io := Clean(f.block).(drop := LostDrop);
    assert Writes(s, f, h, io) by { DropAt(s, u, h, LostDrop, h - 1); }
    assert f.block.hash in s.blocks ==> RowServed(s.blocks[f.block.hash], u, f.block.hash);
    UniqueIffRetired(s, f, h, io);
  }

  /**
   For every two chains that part at height c >= 2 there is a run with one
   restart and one lost COMMIT that ends with two NORMAL rows at c.
   */
  lemma DoubledRun(u: Universe, before: seq<ChainBlock>, after: seq<ChainBlock>, c: int) returns (st: State)
    requires Consistent(u) && Followable(u, before) && Followable(u, after)
    requires |before| == |after| == c + 1 && c >= 2
    requires before[c - 1].hash == after[c - 1].hash && before[c].hash != after[c].hash
    ensures Arises(st, u) && !Unique(st.store)
  {
    FreshIdle(u);
    assert forall h :: At(Fresh.store, h).None?;
    var st1 := GrowTo(Fresh, u, before, -1);
    MaxIs(st1.store, u, c);
    ReachArises(st1, u);
    ArisesNext(st1, Restart, u);
    var st2 := Next(st1, Restart);
    ArisesNext(st2, Poll(c, CleanDrop), u);
    var st3 := Next(st2, Poll(c, CleanDrop));
    assert st3 == State(c - 1, Some(c), st1.store);
    var f := FetchAt(after, c);
    FetchValid(u, after, c);
    var io := Clean(f.block).(drop := LostDrop);
    ArisesNext(st3, Sync(f, io), u);
    st := Next(st3, Sync(f, io));
    DoubledSync(st1.store, u, f, c);
  }
}
